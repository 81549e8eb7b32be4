/** The directory lister usfls.c: an optional `-a` flag and one pass over
    the entries the directory scan yields, printing the ones it keeps in scan
    order. The scan itself is an input: whether the directory could be opened, and the
    entry names in the order `readdir` returns them. */
module Lister {

  const AllFlag := "-a"

  /** `list_all`: set only for exactly one argument equal to "-a";
      `args` are the arguments after the program name. */
  function ListAll(args: seq<string>): (b: bool)
    ensures b <==> args == [AllFlag]
  {
    |args| == 1 && args[0] == AllFlag
  }

  /** Hidden entries are those whose first character is '.'. An empty name
      has the terminator as first character and is not hidden. */
  predicate Hidden(name: string)
  {
    |name| > 0 && name[0] == '.'
  }

  /** The names the scan loop prints, in scan order. */
  function Shown(entries: seq<string>, listAll: bool): (out: seq<string>)
    ensures |out| <= |entries|
    ensures forall i :: 0 <= i < |out| ==> out[i] in entries
    ensures forall i :: 0 <= i < |out| ==> listAll || !Hidden(out[i])
  {
    if |entries| == 0 then []
    else
      var tail := Shown(entries[1..], listAll);
      if listAll || !Hidden(entries[0]) then [entries[0]] + tail else tail
  }

  /** The listing of a scan split in two is the two listings one after the
      other: the output keeps scan order and nothing is reordered. */
  lemma {:induction false} ShownAppend(a: seq<string>, b: seq<string>, listAll: bool)
    ensures Shown(a + b, listAll) == Shown(a, listAll) + Shown(b, listAll)
    decreases |a|
  {
    if |a| > 0 {
      var ab := a + b;
      assert ab[0] == a[0];
      assert ab[1..] == a[1..] + b;
      ShownAppend(a[1..], b, listAll);
      var rest := Shown(a[1..], listAll) + Shown(b, listAll);
      assert Shown(ab, listAll) == (if listAll || !Hidden(a[0]) then [a[0]] + rest else rest);
      assert Shown(a, listAll) == (if listAll || !Hidden(a[0]) then [a[0]] + Shown(a[1..], listAll) else Shown(a[1..], listAll));
    } else {
      assert a + b == b;
    }
  }

  /** Each name is printed as many times as the scan yields it when it is
      shown at all, and never when it is hidden. */
  lemma {:induction false} ShownCounts(entries: seq<string>, listAll: bool, x: string)
    ensures multiset(Shown(entries, listAll))[x]
         == if listAll || !Hidden(x) then multiset(entries)[x] else 0
    decreases |entries|
  {
    if |entries| > 0 {
      var e, tail := entries[0], entries[1..];
      ShownCounts(tail, listAll, x);
      assert entries == [e] + tail;
      assert multiset(entries) == multiset{e} + multiset(tail);
      if listAll || !Hidden(e) {
        assert Shown(entries, listAll) == [e] + Shown(tail, listAll);
        assert multiset(Shown(entries, listAll)) == multiset{e} + multiset(Shown(tail, listAll));
      } else {
        assert Shown(entries, listAll) == Shown(tail, listAll);
        assert x == e ==> !(listAll || !Hidden(x));
      }
    }
  }

  /** ShownCounts for every name at once. */
  lemma ShownCountsAll(entries: seq<string>, listAll: bool)
    ensures forall x :: multiset(Shown(entries, listAll))[x]
                        == if listAll || !Hidden(x) then multiset(entries)[x] else 0
  {
    forall x
      ensures multiset(Shown(entries, listAll))[x]
              == if listAll || !Hidden(x) then multiset(entries)[x] else 0
    {
      ShownCounts(entries, listAll, x);
    }
  }

  /** With -a every entry is printed, exactly as scanned. */
  lemma {:induction false} ShownAll(entries: seq<string>)
    ensures Shown(entries, true) == entries
    decreases |entries|
  {
    if |entries| > 0 {
      ShownAll(entries[1..]);
      assert entries == [entries[0]] + entries[1..];
    }
  }

  /** The run of the lister: the directory could not be opened (message,
      exit status -1, no names), or the printed names with status 0. */
  datatype Outcome = CannotOpen | Listed(names: seq<string>)

  function Run(args: seq<string>, dirOpened: bool, entries: seq<string>): (r: Outcome)
    ensures r == CannotOpen <==> !dirOpened
    ensures r.Listed? && args == [AllFlag] ==> r.names == entries
    ensures r.Listed? && args != [AllFlag] ==>
              forall i :: 0 <= i < |r.names| ==> !Hidden(r.names[i])
    ensures r.Listed? ==> r.names == Shown(entries, ListAll(args))
    ensures r.Listed? ==>
              forall x :: multiset(r.names)[x]
                          == if ListAll(args) || !Hidden(x) then multiset(entries)[x] else 0
  {
    if !dirOpened then CannotOpen
    else
      var all := ListAll(args);
      ShownAll(entries);
      ShownCountsAll(entries, all);
      Listed(Shown(entries, all))
  }

  /** Exit status of the lister. */
  function ExitCode(r: Outcome): (code: int)
    ensures code == 0 <==> r.Listed?
    ensures r.CannotOpen? ==> code == -1
  {
    if r.CannotOpen? then -1 else 0
  }
}
