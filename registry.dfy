/**
 * The status-change listener list and one notification pass over it.
 *
 * A listener is either a caller's callback (`onStatusChange`) or the one-shot
 * closure an operation installs: it ignores statuses other than its target,
 * and on the first match runs its own disposer and then calls the caller.
 * Disposers do not edit the list; they replace it with `_.without(list, fn)`,
 * so a pass that is under way keeps walking the snapshot it started with.
 */
module Registry {

  /** The operations that wait for a status. */
  datatype Op = StartCameraOp | StopCameraOp | TakePictureOp | StopTimelapseOp

  /** The status each operation's one-shot listener waits for. */
  function TargetOf(op: Op): string {
    match op
    case StartCameraOp => "ready"
    case StopCameraOp => "halted"
    case TakePictureOp => "ready"
    case StopTimelapseOp => "ready"
  }

  /** `User(id)`: a callback given to `onStatusChange`; `OneShot(token, op)`: the closure of call `token` to `op`. */
  datatype Listener = User(id: nat) | OneShot(token: nat, op: Op)

  /** What a caller's completion callback receives. */
  datatype Payload = Done | Files(paths: seq<string>)

  /** `takePicture` and `stopTimelapse` hand over the created-file ledger; the camera operations pass nothing. */
  function PayloadOf(op: Op, files: seq<string>): Payload {
    if op == TakePictureOp || op == StopTimelapseOp then Files(files) else Done
  }

  /** A call into caller code: a preview frame, a status notice, an operation's completion. */
  datatype Event = Frame(subscriber: nat) | Notice(listener: nat, status: string) | Resolved(token: nat, payload: Payload)

  /** The listener is a one-shot whose target is `status`. */
  predicate Fires(l: Listener, status: string) {
    l.OneShot? && status == TargetOf(l.op)
  }

  // ----- disposers: `_.without(list, fn)` -----

  /** `_.without(s, x)`: a fresh list with every occurrence of `x` dropped. */
  function Without<T(==, !new)>(s: seq<T>, x: T): (r: seq<T>)
    ensures forall y :: y in r <==> y in s && y != x
    ensures |r| <= |s|
  {
    if s == [] then []
    else (if s[0] == x then [] else [s[0]]) + Without(s[1..], x)
  }

  /** The others keep their relative order: dropping distributes over concatenation. */
  lemma {:induction false} WithoutConcat<T(!new)>(a: seq<T>, b: seq<T>, x: T)
    ensures Without(a + b, x) == Without(a, x) + Without(b, x)
    decreases |a|
  {
    if a == [] {
      assert a + b == b;
    } else {
      assert (a + b)[0] == a[0];
      assert (a + b)[1..] == a[1..] + b;
      WithoutConcat(a[1..], b, x);
    }
  }

  /** Disposing a callback that is not registered leaves the list as it is. */
  lemma {:induction false} WithoutAbsent<T(!new)>(s: seq<T>, x: T)
    requires x !in s
    ensures Without(s, x) == s
    decreases |s|
  {
    if s != [] {
      WithoutAbsent(s[1..], x);
      assert s == [s[0]] + s[1..];
    }
  }

  /** Calling a disposer a second time changes nothing. */
  lemma WithoutIdempotent<T(!new)>(s: seq<T>, x: T)
    ensures Without(Without(s, x), x) == Without(s, x)
  {
    WithoutAbsent(Without(s, x), x);
  }

  /** Every other callback stays registered as many times as it was. */
  lemma {:induction false} WithoutKeepsCount<T(!new)>(s: seq<T>, x: T, y: T)
    requires y != x
    ensures multiset(Without(s, x))[y] == multiset(s)[y]
    decreases |s|
  {
    if s != [] {
      WithoutKeepsCount(s[1..], x, y);
      assert s == [s[0]] + s[1..];
      assert multiset(s) == multiset([s[0]]) + multiset(s[1..]);
    }
  }

  /** Two disposers give the same list whichever runs first. */
  lemma {:induction false} WithoutCommutes<T(!new)>(s: seq<T>, x: T, y: T)
    ensures Without(Without(s, x), y) == Without(Without(s, y), x)
    decreases |s|
  {
    if s != [] {
      var h := if s[0] == x then [] else [s[0]];
      var g := if s[0] == y then [] else [s[0]];
      WithoutConcat(h, Without(s[1..], x), y);
      WithoutConcat(g, Without(s[1..], y), x);
      WithoutCommutes(s[1..], x, y);
    }
  }

  // ----- what a pass calls -----

  /** The callbacks reached through listener `l` when `status` is announced. */
  function EventsOf(l: Listener, status: string, files: seq<string>): seq<Event> {
    match l
    case User(id) => [Notice(id, status)]
    case OneShot(token, op) => if status == TargetOf(op) then [Resolved(token, PayloadOf(op, files))] else []
  }

  /** The calls a pass over `snapshot` makes, in registration order. */
  function Calls(snapshot: seq<Listener>, status: string, files: seq<string>): seq<Event>
    decreases |snapshot|
  {
    if snapshot == [] then [] else EventsOf(snapshot[0], status, files) + Calls(snapshot[1..], status, files)
  }

  lemma {:induction false} CallsSnoc(a: seq<Listener>, l: Listener, status: string, files: seq<string>)
    ensures Calls(a + [l], status, files) == Calls(a, status, files) + EventsOf(l, status, files)
    decreases |a|
  {
    if a == [] {
      assert [] + [l] == [l];
      assert [l][1..] == [];
    } else {
      assert (a + [l])[1..] == a[1..] + [l];
      CallsSnoc(a[1..], l, status, files);
    }
  }

  /**
   * A pass calls every caller callback of the snapshot with the new status,
   * resolves exactly the one-shots whose target is that status, and calls
   * nothing else.
   */
  lemma {:induction false} CallsContents(snapshot: seq<Listener>, status: string, files: seq<string>)
    ensures forall e :: e in Calls(snapshot, status, files) && e.Notice? ==> e.status == status && User(e.listener) in snapshot
    ensures forall id :: User(id) in snapshot ==> Notice(id, status) in Calls(snapshot, status, files)
    ensures forall l :: l in snapshot && Fires(l, status) ==> Resolved(l.token, PayloadOf(l.op, files)) in Calls(snapshot, status, files)
    ensures forall t :: NotPending(snapshot, t) ==> NotResolved(Calls(snapshot, status, files), t)
    ensures forall t :: NoneFires(snapshot, status, t) ==> NotResolved(Calls(snapshot, status, files), t)
    ensures forall e :: e in Calls(snapshot, status, files) ==> !e.Frame?
    decreases |snapshot|
  {
    if snapshot != [] {
      CallsContents(snapshot[1..], status, files);
      assert snapshot == [snapshot[0]] + snapshot[1..];
      forall t | NotPending(snapshot, t) ensures NotResolved(Calls(snapshot, status, files), t) {
        assert NotPending(snapshot[1..], t);
      }
      forall t | NoneFires(snapshot, status, t) ensures NotResolved(Calls(snapshot, status, files), t) {
        assert NoneFires(snapshot[1..], status, t);
      }
    }
  }

  // ----- one pass, as the `_.each` loop runs it -----

  /** The part of the state a pass changes: the current list and the calls made. */
  datatype Pass = Pass(listeners: seq<Listener>, trace: seq<Event>)

  /** The callback of listener `l` run with `status`: a one-shot that matches disposes itself, then calls the caller. */
  function Notify(l: Listener, status: string, files: seq<string>, p: Pass): Pass {
    match l
    case User(id) => p.(trace := p.trace + [Notice(id, status)])
    case OneShot(token, op) =>
      if status == TargetOf(op) then Pass(Without(p.listeners, l), p.trace + [Resolved(token, PayloadOf(op, files))])
      else p
  }

  /** The pass over `snapshot`, element by element, while the current list may be replaced. */
  function Fanout(snapshot: seq<Listener>, status: string, files: seq<string>, p: Pass): Pass
    decreases |snapshot|
  {
    if snapshot == [] then p
    else Notify(snapshot[|snapshot| - 1], status, files, Fanout(snapshot[..|snapshot| - 1], status, files, p))
  }

  /** The calls a pass makes depend on the snapshot alone, not on the disposers run during it. */
  lemma {:induction false} FanoutMakesCalls(snapshot: seq<Listener>, status: string, files: seq<string>, p: Pass)
    ensures Fanout(snapshot, status, files, p).trace == p.trace + Calls(snapshot, status, files)
    decreases |snapshot|
  {
    if snapshot != [] {
      var init, last := snapshot[..|snapshot| - 1], snapshot[|snapshot| - 1];
      var q := Fanout(init, status, files, p);
      FanoutMakesCalls(init, status, files, p);
      NotifyEmits(last, status, files, q);
      assert snapshot == init + [last];
      CallsSnoc(init, last, status, files);
    }
  }

  /** One listener's callback makes exactly the calls `EventsOf` lists. */
  lemma NotifyEmits(l: Listener, status: string, files: seq<string>, p: Pass)
    ensures Notify(l, status, files, p).trace == p.trace + EventsOf(l, status, files)
  {
    if l.OneShot? && status != TargetOf(l.op) {
      assert p.trace + [] == p.trace;
    }
  }

  /** After a pass the list holds what it held, minus the one-shots of the snapshot that fired. */
  lemma {:induction false} FanoutListeners(snapshot: seq<Listener>, status: string, files: seq<string>, p: Pass)
    ensures forall l :: l in Fanout(snapshot, status, files, p).listeners <==>
                         l in p.listeners && !(l in snapshot && Fires(l, status))
    decreases |snapshot|
  {
    if snapshot != [] {
      var init, last := snapshot[..|snapshot| - 1], snapshot[|snapshot| - 1];
      FanoutListeners(init, status, files, p);
      assert snapshot == init + [last];
    }
  }

  /**
   * The list `ls` with exactly the one-shots of `snapshot` that fire on
   * `status` taken out: every other entry stays, in order, as often as before.
   */
  function Survivors(ls: seq<Listener>, snapshot: seq<Listener>, status: string): (r: seq<Listener>)
    ensures forall l :: l in r <==> l in ls && !(l in snapshot && Fires(l, status))
    decreases |ls|
  {
    if ls == [] then []
    else
      var rest := Survivors(ls[1..], snapshot, status);
      assert ls == [ls[0]] + ls[1..];
      (if ls[0] in snapshot && Fires(ls[0], status) then [] else [ls[0]]) + rest
  }

  /** Every listener that is not taken out stays registered exactly as many times as before. */
  lemma {:induction false} SurvivorsKeepCount(ls: seq<Listener>, snapshot: seq<Listener>, status: string, l: Listener)
    ensures multiset(Survivors(ls, snapshot, status))[l] == if l in snapshot && Fires(l, status) then 0 else multiset(ls)[l]
    decreases |ls|
  {
    if ls != [] {
      SurvivorsKeepCount(ls[1..], snapshot, status, l);
      assert ls == [ls[0]] + ls[1..];
      assert multiset(ls) == multiset([ls[0]]) + multiset(ls[1..]);
    }
  }

  /** Growing the snapshot by one listener drops that listener too, if it fires. */
  lemma {:induction false} SurvivorsSnoc(ls: seq<Listener>, snapshot: seq<Listener>, l: Listener, status: string)
    ensures Survivors(ls, snapshot + [l], status) ==
            if Fires(l, status) then Without(Survivors(ls, snapshot, status), l) else Survivors(ls, snapshot, status)
    decreases |ls|
  {
    if ls != [] {
      SurvivorsSnoc(ls[1..], snapshot, l, status);
      var h := if ls[0] in snapshot && Fires(ls[0], status) then [] else [ls[0]];
      WithoutConcat(h, Survivors(ls[1..], snapshot, status), l);
    }
  }

  /** After a pass the list is exactly the one it started from, minus the snapshot's one-shots that fired. */
  lemma {:induction false} FanoutSurvivors(snapshot: seq<Listener>, status: string, files: seq<string>, p: Pass)
    ensures Fanout(snapshot, status, files, p).listeners == Survivors(p.listeners, snapshot, status)
    decreases |snapshot|
  {
    if snapshot == [] {
      SurvivorsOfEmpty(p.listeners, status);
    } else {
      var init, last := snapshot[..|snapshot| - 1], snapshot[|snapshot| - 1];
      FanoutSurvivors(init, status, files, p);
      assert snapshot == init + [last];
      SurvivorsSnoc(p.listeners, init, last, status);
    }
  }

  /** Against an empty snapshot nothing is taken out. */
  lemma {:induction false} SurvivorsOfEmpty(ls: seq<Listener>, status: string)
    ensures Survivors(ls, [], status) == ls
    decreases |ls|
  {
    if ls != [] {
      SurvivorsOfEmpty(ls[1..], status);
      assert ls == [ls[0]] + ls[1..];
    }
  }

  // ----- invariants of the list and of the calls made -----

  /** No two one-shots in the list belong to the same call. */
  predicate UniqueTokens(ls: seq<Listener>) {
    forall i, j :: 0 <= i < j < |ls| && ls[i].OneShot? && ls[j].OneShot? ==> ls[i].token != ls[j].token
  }

  /** No completion callback has been called twice. */
  predicate ResolvedOnce(trace: seq<Event>) {
    forall i, j :: 0 <= i < j < |trace| && trace[i].Resolved? && trace[j].Resolved? ==> trace[i].token != trace[j].token
  }

  /** No one-shot of call `t` is registered. */
  predicate NotPending(ls: seq<Listener>, t: nat) {
    forall l :: l in ls && l.OneShot? ==> l.token != t
  }

  /** No listener of the snapshot that fires on `status` belongs to call `t`. */
  predicate NoneFires(snapshot: seq<Listener>, status: string, t: nat) {
    forall l :: l in snapshot && Fires(l, status) ==> l.token != t
  }

  /** The completion callback of call `t` has not been called. */
  predicate NotResolved(trace: seq<Event>, t: nat) {
    forall e :: e in trace && e.Resolved? ==> e.token != t
  }

  /** One-shots are unique, completions happened at most once, and a registered one-shot has not completed. */
  predicate Coherent(p: Pass) {
    && UniqueTokens(p.listeners)
    && ResolvedOnce(p.trace)
    && forall l :: l in p.listeners && l.OneShot? ==> NotResolved(p.trace, l.token)
  }

  lemma UniqueTokensCons(h: Listener, t: seq<Listener>)
    requires UniqueTokens(t)
    requires h.OneShot? ==> NotPending(t, h.token)
    ensures UniqueTokens([h] + t)
  {
    var s := [h] + t;
    forall i, j | 0 <= i < j < |s| && s[i].OneShot? && s[j].OneShot?
      ensures s[i].token != s[j].token
    {
      if i == 0 {
        assert s[j] == t[j - 1] && s[j] in t;
      } else {
        assert s[i] == t[i - 1] && s[j] == t[j - 1];
      }
    }
  }

  lemma UniqueTokensSnoc(ls: seq<Listener>, l: Listener)
    requires UniqueTokens(ls)
    requires l.OneShot? ==> NotPending(ls, l.token)
    ensures UniqueTokens(ls + [l])
  {
    var s := ls + [l];
    forall i, j | 0 <= i < j < |s| && s[i].OneShot? && s[j].OneShot?
      ensures s[i].token != s[j].token
    {
      if j == |ls| {
        assert s[i] == ls[i] && s[i] in ls;
      } else {
        assert s[i] == ls[i] && s[j] == ls[j];
      }
    }
  }

  lemma {:induction false} WithoutUniqueTokens(s: seq<Listener>, x: Listener)
    requires UniqueTokens(s)
    ensures UniqueTokens(Without(s, x))
    decreases |s|
  {
    if s != [] {
      var rest := s[1..];
      assert UniqueTokens(rest) by {
        forall i, j | 0 <= i < j < |rest| && rest[i].OneShot? && rest[j].OneShot?
          ensures rest[i].token != rest[j].token
        {
          assert rest[i] == s[i + 1] && rest[j] == s[j + 1];
        }
      }
      WithoutUniqueTokens(rest, x);
      if s[0] != x && s[0].OneShot? {
        forall l | l in Without(rest, x) && l.OneShot? ensures l.token != s[0].token {
          var k :| 0 <= k < |rest| && rest[k] == l;
          assert s[k + 1] == l;
        }
        UniqueTokensCons(s[0], Without(rest, x));
      } else if s[0] != x {
        UniqueTokensCons(s[0], Without(rest, x));
      } else {
        assert Without(s, x) == [] + Without(rest, x);
      }
    }
  }

  /** Two registered one-shots of the same call are the same listener. */
  lemma SameToken(ls: seq<Listener>, a: Listener, b: Listener)
    requires UniqueTokens(ls)
    requires a in ls && b in ls && a.OneShot? && b.OneShot? && a.token == b.token
    ensures a == b
  {
    var i :| 0 <= i < |ls| && ls[i] == a;
    var j :| 0 <= j < |ls| && ls[j] == b;
    if i != j {
      assert false;
    }
  }

  /**
   * A pass over the current list keeps it coherent; up to position k, the
   * one-shots still ahead in the snapshot are all still registered.
   */
  lemma {:induction false} FanoutPrefixCoherent(snapshot: seq<Listener>, k: nat, status: string, files: seq<string>, p: Pass)
    requires p.listeners == snapshot && Coherent(p)
    requires k <= |snapshot|
    ensures Coherent(Fanout(snapshot[..k], status, files, p))
    ensures forall j :: k <= j < |snapshot| && snapshot[j].OneShot? ==> snapshot[j] in Fanout(snapshot[..k], status, files, p).listeners
    decreases k
  {
    if k == 0 {
      assert snapshot[..0] == [];
    } else {
      FanoutPrefixCoherent(snapshot, k - 1, status, files, p);
      var m := Fanout(snapshot[..k - 1], status, files, p);
      var x := snapshot[k - 1];
      assert snapshot[..k][..k - 1] == snapshot[..k - 1];
      assert Fanout(snapshot[..k], status, files, p) == Notify(x, status, files, m);
      var r := Notify(x, status, files, m);
      match x
      case User(id) => {
        assert r.trace == m.trace + [Notice(id, status)];
      }
      case OneShot(t, op) => {
        if status == TargetOf(op) {
          assert x in m.listeners;
          var e := Resolved(t, PayloadOf(op, files));
          assert r.trace == m.trace + [e];
          assert NotResolved(m.trace, t);
          WithoutUniqueTokens(m.listeners, x);
          forall l | l in r.listeners && l.OneShot? ensures NotResolved(r.trace, l.token) {
            assert l in m.listeners && l != x;
            if l.token == t {
              SameToken(m.listeners, l, x);
            }
          }
          forall j | k <= j < |snapshot| && snapshot[j].OneShot?
            ensures snapshot[j] in r.listeners
          {
            assert snapshot[k - 1].token != snapshot[j].token;
          }
        }
      }
    }
  }

  /** A pass over the whole current list keeps it coherent. */
  lemma FanoutCoherent(snapshot: seq<Listener>, status: string, files: seq<string>, p: Pass)
    requires p.listeners == snapshot && Coherent(p)
    ensures Coherent(Fanout(snapshot, status, files, p))
  {
    FanoutPrefixCoherent(snapshot, |snapshot|, status, files, p);
    assert snapshot[..|snapshot|] == snapshot;
  }

  /** Calls that complete no operation keep completions unique and leave every call's completion as it was. */
  lemma AppendUnresolved(trace: seq<Event>, events: seq<Event>)
    requires forall e :: e in events ==> !e.Resolved?
    ensures ResolvedOnce(trace) ==> ResolvedOnce(trace + events)
    ensures forall t :: NotResolved(trace, t) ==> NotResolved(trace + events, t)
  {
    var all := trace + events;
    if ResolvedOnce(trace) {
      forall i, j | 0 <= i < j < |all| && all[i].Resolved? && all[j].Resolved?
        ensures all[i].token != all[j].token
      {
        if j < |trace| {
          assert all[i] == trace[i] && all[j] == trace[j];
        }
      }
    }
  }
}
