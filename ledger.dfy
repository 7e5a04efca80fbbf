/**
 * The created-file ledger: the media-folder watch handler appends each
 * reported path unless it is already there.
 */
module Ledger {

  predicate NoDuplicates(s: seq<string>) {
    forall i, j :: 0 <= i < j < |s| ==> s[i] != s[j]
  }

  /** One watch event: append `path` unless `_.contains` finds it already. */
  function Record(ledger: seq<string>, path: string): (r: seq<string>)
    ensures forall x :: x in r <==> x in ledger || x == path
    ensures ledger <= r && |r| <= |ledger| + 1
    ensures NoDuplicates(ledger) ==> NoDuplicates(r)
  {
    if path in ledger then ledger else ledger + [path]
  }

  /** A burst of watch events, in the order they arrive. */
  function RecordAll(ledger: seq<string>, paths: seq<string>): seq<string>
    decreases |paths|
  {
    if paths == [] then ledger else RecordAll(Record(ledger, paths[0]), paths[1..])
  }

  /** Whatever arrives, the ledger holds each path at most once. */
  lemma {:induction false} RecordAllNoDuplicates(ledger: seq<string>, paths: seq<string>)
    requires NoDuplicates(ledger)
    ensures NoDuplicates(RecordAll(ledger, paths))
    decreases |paths|
  {
    if paths != [] {
      RecordAllNoDuplicates(Record(ledger, paths[0]), paths[1..]);
    }
  }

  /** The ledger ends up holding exactly the paths it held or was sent. */
  lemma {:induction false} RecordAllMembers(ledger: seq<string>, paths: seq<string>)
    ensures forall x :: x in RecordAll(ledger, paths) <==> x in ledger || x in paths
    decreases |paths|
  {
    if paths != [] {
      RecordAllMembers(Record(ledger, paths[0]), paths[1..]);
      assert paths == [paths[0]] + paths[1..];
    }
  }

  /** Entries already in the ledger keep their place; new ones go at the end. */
  lemma {:induction false} RecordAllExtends(ledger: seq<string>, paths: seq<string>)
    ensures ledger <= RecordAll(ledger, paths)
    decreases |paths|
  {
    if paths != [] {
      var next := Record(ledger, paths[0]);
      RecordAllExtends(next, paths[1..]);
      assert ledger == next[..|ledger|];
    }
  }

  /** Reporting a path a second time changes nothing. */
  lemma RecordIdempotent(ledger: seq<string>, path: string)
    ensures Record(Record(ledger, path), path) == Record(ledger, path)
  {
  }

  /** After a reset, p1, p1 again, then p2 leaves exactly [p1, p2]. */
  lemma ResetThenRecord(p1: string, p2: string)
    requires p1 != p2
    ensures RecordAll([], [p1, p1, p2]) == [p1, p2]
  {
    calc {
      RecordAll([], [p1, p1, p2]);
      { assert [p1, p1, p2][1..] == [p1, p2]; assert Record([], p1) == [p1]; }
      RecordAll([p1], [p1, p2]);
      { assert [p1, p2][1..] == [p2]; assert Record([p1], p1) == [p1]; }
      RecordAll([p1], [p2]);
      { assert [p2][1..] == []; assert Record([p1], p2) == [p1, p2]; }
      RecordAll([p1, p2], []);
    }
  }
}
