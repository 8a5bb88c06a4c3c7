/** Program.cs: the lockstep synchronisation engine. Each local user keeps a `PeerState`:
    an int32 simulation accumulator, the ordered names of the peers it synchronises with,
    and per-peer queues of reported states and of game-event deltas. `CheckGameStates`
    is the frame barrier: it advances only when every listed peer has a reported state
    queued, drops every peer whose state differs from the locally expected one, and then
    folds the queued deltas into the accumulator. */
module Lockstep {
  import opened Wire

  /** Codes of `GameEventType`. */
  const GameStateTag: i32 := 0
  const GameEventTag: i32 := 1

  /** A `GameEvent` struct as queued in `queuedEvents`; its boxed payload is always an `int`. */
  datatype GameEvent = GameEvent(mType: i32, mEventData: i32)

  /** One entry decoded from a game-data stream. */
  datatype Entry = StateEntry(state: i32) | EventEntry(delta: i32)

  predicate NoDuplicates(s: seq<string>)
  {
    forall i, j :: 0 <= i < j < |s| ==> s[i] != s[j]
  }

  function Sum(s: seq<i32>): (r: int)
  {
    if s == [] then 0 else s[0] + Sum(s[1..])
  }

  /** `while (q.Count > 0) acc += q.Dequeue();` with C#'s unchecked int32 addition:
      the result is the whole sum, wrapped once. */
  function Accumulate(acc: i32, q: seq<i32>): (r: i32)
    ensures r == ToInt32(acc + Sum(q))
    decreases |q|
  {
    if q == [] then acc
    else
      ToInt32Absorbs(acc + q[0], Sum(q[1..]));
      Accumulate(ToInt32(acc + q[0]), q[1..])
  }

  // ---------------------------------------------------------------------------
  // Game-data encoding (`CreateGameData`, `ParseGameData`, `GetGameStateFromBytes`)
  // ---------------------------------------------------------------------------

  /** The bytes `CreateGameData` writes: the GameState tag and the state, then, when an event
      is queued, the GameEvent tag and the first queued event's value. */
  function GameDataBytes(currentState: i32, queued: seq<GameEvent>): (r: seq<byte>)
    ensures |r| == if queued == [] then 8 else 16
  {
    I32Bytes(GameStateTag) + I32Bytes(currentState) +
    (if queued == [] then [] else I32Bytes(GameEventTag) + I32Bytes(queued[0].mEventData))
  }

  /** What `ParseGameData`'s read loop sees from `pos` on: a 4-byte tag, then for a GameState or
      GameEvent tag a 4-byte value; any other tag is skipped. The loop ends silently at the
      first read that runs past the end of the stream. */
  function Entries(data: seq<byte>, pos: nat): seq<Entry>
    decreases |data| - pos
  {
    if |data| < pos + 4 then []
    else
      var tag := ReadI32(data, pos);
      if tag == GameStateTag || tag == GameEventTag then
        if |data| < pos + 8 then []
        else
          var v := ReadI32(data, pos + 4);
          [if tag == GameStateTag then StateEntry(v) else EventEntry(v)] + Entries(data, pos + 8)
      else Entries(data, pos + 4)
  }

  function States(es: seq<Entry>): seq<i32>
  {
    if es == [] then []
    else (if es[0].StateEntry? then [es[0].state] else []) + States(es[1..])
  }

  function Deltas(es: seq<Entry>): seq<i32>
  {
    if es == [] then []
    else (if es[0].EventEntry? then [es[0].delta] else []) + Deltas(es[1..])
  }

  /** Append `s` to the queue of `key`; with nothing to append the map is untouched. */
  function Enqueue(m: map<string, seq<i32>>, key: string, s: seq<i32>): (r: map<string, seq<i32>>)
    requires s != [] ==> key in m
    ensures r.Keys == m.Keys
    ensures forall k :: k in m && k != key ==> r[k] == m[k]
    ensures key in m ==> r[key] == m[key] + s
  {
    if s == [] then m else m[key := m[key] + s]
  }

  /** One tagged entry of the stream, as seen by `States` and `Deltas`. */
  lemma EntriesStep(data: seq<byte>, pos: nat)
    requires pos + 8 <= |data|
    requires ReadI32(data, pos) == GameStateTag || ReadI32(data, pos) == GameEventTag
    ensures ReadI32(data, pos) == GameStateTag ==>
      && States(Entries(data, pos)) == [ReadI32(data, pos + 4)] + States(Entries(data, pos + 8))
      && Deltas(Entries(data, pos)) == Deltas(Entries(data, pos + 8))
    ensures ReadI32(data, pos) == GameEventTag ==>
      && States(Entries(data, pos)) == States(Entries(data, pos + 8))
      && Deltas(Entries(data, pos)) == [ReadI32(data, pos + 4)] + Deltas(Entries(data, pos + 8))
  {
    var tag, v := ReadI32(data, pos), ReadI32(data, pos + 4);
    var e := if tag == GameStateTag then StateEntry(v) else EventEntry(v);
    assert Entries(data, pos) == [e] + Entries(data, pos + 8);
    assert ([e] + Entries(data, pos + 8))[1..] == Entries(data, pos + 8);
  }

  lemma EnqueueOne(m: map<string, seq<i32>>, key: string, v: i32, rest: seq<i32>)
    requires key in m
    ensures Enqueue(m, key, [v] + rest) == Enqueue(m[key := m[key] + [v]], key, rest)
  {
    assert m[key] + [v] + rest == m[key] + ([v] + rest);
  }

  /** Parsing what `CreateGameData` wrote gives back the state and, if one was queued, the event. */
  lemma {:induction false} GameDataRoundTrip(currentState: i32, queued: seq<GameEvent>)
    ensures Entries(GameDataBytes(currentState, queued), 0) ==
      [StateEntry(currentState)] + (if queued == [] then [] else [EventEntry(queued[0].mEventData)])
  {
    var d := GameDataBytes(currentState, queued);
    ReadAt(d, 0, GameStateTag);
    ReadAt(d, 4, currentState);
    if queued != [] {
      ReadAt(d, 8, GameEventTag);
      ReadAt(d, 12, queued[0].mEventData);
      assert Entries(d, 8) == [EventEntry(queued[0].mEventData)] + Entries(d, 16);
    }
    assert Entries(d, 0) == [StateEntry(currentState)] + Entries(d, 8);
  }

  /** What `ParseGameData` enqueues for what `CreateGameData` wrote: the sender's state on its
      state queue and, if one was queued, its event on its event queue. */
  lemma GameDataParsedBack(currentState: i32, queued: seq<GameEvent>)
    ensures States(Entries(GameDataBytes(currentState, queued), 0)) == [currentState]
    ensures Deltas(Entries(GameDataBytes(currentState, queued), 0)) ==
      if queued == [] then [] else [queued[0].mEventData]
  {
    GameDataRoundTrip(currentState, queued);
    var es := Entries(GameDataBytes(currentState, queued), 0);
    if queued == [] {
      assert es == [StateEntry(currentState)] && es[1..] == [];
    } else {
      var e := EventEntry(queued[0].mEventData);
      assert es == [StateEntry(currentState), e] && es[1..] == [e] && es[1..][1..] == [];
      assert States(es[1..]) == States([]) && Deltas(es[1..]) == [e.delta] + Deltas([]);
    }
  }

  /** `GetGameStateFromBytes`: the first 4 bytes as an int32 (fewer than 4 bytes throw). */
  function GetGameStateFromBytes(data: seq<byte>): (r: i32)
    requires 4 <= |data|
    ensures r == ReadI32(data[..4], 0)
  {
    ReadI32(data, 0)
  }

  /** On what `CreateGameData` produces, `GetGameStateFromBytes` returns the GameState tag,
      not the state that follows it. */
  lemma GameStateFromBytesReadsTag(currentState: i32, queued: seq<GameEvent>)
    ensures GetGameStateFromBytes(GameDataBytes(currentState, queued)) == GameStateTag
  {
    var d := GameDataBytes(currentState, queued);
    ReadI32Slice(I32Bytes(GameStateTag), 0, [], d[4..]);
    assert [] + I32Bytes(GameStateTag) + d[4..] == d;
  }

  // ---------------------------------------------------------------------------
  // The per-user frame advance, on values
  // ---------------------------------------------------------------------------

  /** Every queue the `Dequeue` calls of one sweep will touch holds enough entries: a name
      listed k times needs k queued states. */
  predicate Dequeueable(names: seq<string>, frames: map<string, seq<i32>>)
  {
    forall n :: n in names ==> n in frames && multiset(names)[n] <= |frames[n]|
  }

  lemma DequeueableTail(names: seq<string>, frames: map<string, seq<i32>>)
    requires names != [] && Dequeueable(names, frames)
    ensures |frames[names[0]]| > 0
    ensures Dequeueable(names[1..], frames[names[0] := frames[names[0]][1..]])
  {
    assert names == [names[0]] + names[1..];
    assert multiset(names) == multiset{names[0]} + multiset(names[1..]);
  }

  /** The eviction loop of `CheckGameStates` for one user (the `RemoveAt(i)` / `--i` loop):
      each listed name's queue loses its front state, and the name stays only if that state
      equals `expected`. */
  function Sweep(names: seq<string>, frames: map<string, seq<i32>>, expected: i32): (r: (seq<string>, map<string, seq<i32>>))
    requires Dequeueable(names, frames)
    ensures r.1.Keys == frames.Keys
    ensures forall n :: n in r.0 ==> n in names
    decreases |names|
  {
    if names == [] then ([], frames)
    else
      DequeueableTail(names, frames);
      var n := names[0];
      var rest := Sweep(names[1..], frames[n := frames[n][1..]], expected);
      (if frames[n][0] == expected then [n] + rest.0 else rest.0, rest.1)
  }

  /** The drain loop of `CheckGameStates` for one user: each listed peer's delta queue is
      added into the accumulator and left empty. */
  function DrainPeers(names: seq<string>, events: map<string, seq<i32>>, acc: i32): (r: (i32, map<string, seq<i32>>))
    requires forall n :: n in names ==> n in events
    ensures r.1.Keys == events.Keys
    decreases |names|
  {
    if names == [] then (acc, events)
    else
      var n := names[0];
      DrainPeers(names[1..], events[n := []], Accumulate(acc, events[n]))
  }

  /** Sum of the delta queues of the listed names. */
  function SumOver(names: seq<string>, events: map<string, seq<i32>>): int
    requires forall n :: n in names ==> n in events
  {
    if names == [] then 0 else Sum(events[names[0]]) + SumOver(names[1..], events)
  }

  /** The engine state of one local user, as a value. */
  datatype UserView = UserView(
    currentState: i32,
    otherPeers: seq<string>,
    localStateQueue: seq<i32>,
    localGameEvents: seq<i32>,
    queuedEvents: seq<GameEvent>,
    frames: map<string, seq<i32>>,
    events: map<string, seq<i32>>)

  /** Each synchronised name has both queues. */
  predicate Tracked(v: UserView)
  {
    forall n :: n in v.otherPeers ==> n in v.frames && n in v.events
  }

  /** The barrier condition for one user: every listed peer has a state queued. */
  predicate ReadyToAdvance(v: UserView)
  {
    forall n :: n in v.otherPeers ==> n in v.frames && |v.frames[n]| > 0
  }

  /** What the advance needs to run without an exception: an expected state of its own,
      and enough queued states for every listed name. */
  predicate CanAdvance(v: UserView)
  {
    |v.localStateQueue| > 0 && Dequeueable(v.otherPeers, v.frames)
  }

  /** First half of an advance: dequeue the expected state and drop divergent peers. */
  function Evict(v: UserView): (w: UserView)
    requires CanAdvance(v)
    ensures Tracked(v) ==> Tracked(w)
  {
    var r := Sweep(v.otherPeers, v.frames, v.localStateQueue[0]);
    v.(otherPeers := r.0, frames := r.1, localStateQueue := v.localStateQueue[1..])
  }

  /** Second half of an advance: fold the surviving peers' deltas, then the local ones. */
  function FoldEvents(v: UserView): (w: UserView)
    requires Tracked(v)
    ensures Tracked(w)
  {
    var r := DrainPeers(v.otherPeers, v.events, v.currentState);
    v.(currentState := Accumulate(r.0, v.localGameEvents), events := r.1, localGameEvents := [])
  }

  function Advance(v: UserView): UserView
    requires CanAdvance(v) && Tracked(v)
  {
    FoldEvents(Evict(v))
  }

  lemma {:induction false} NoDuplicatesCount(s: seq<string>, n: string)
    requires NoDuplicates(s)
    ensures multiset(s)[n] <= 1
  {
    if s != [] {
      assert s == [s[0]] + s[1..];
      NoDuplicatesCount(s[1..], n);
      assert s[0] !in s[1..];
    }
  }

  /** With distinct names, the barrier (one queued state each) is all the sweep needs. */
  lemma ReadyCanAdvance(v: UserView)
    requires NoDuplicates(v.otherPeers) && ReadyToAdvance(v) && |v.localStateQueue| > 0
    ensures CanAdvance(v)
  {
    forall n | n in v.otherPeers
      ensures multiset(v.otherPeers)[n] <= |v.frames[n]|
    {
      NoDuplicatesCount(v.otherPeers, n);
    }
  }

  /** Survivors keep their relative order: the `--i` after `RemoveAt(i)` skips no entry. */
  lemma {:induction false} SweepKeepsOrder(names: seq<string>, frames: map<string, seq<i32>>, expected: i32)
    requires Dequeueable(names, frames)
    ensures IsSubsequence(Sweep(names, frames, expected).0, names)
    decreases |names|
  {
    if names != [] {
      DequeueableTail(names, frames);
      var n := names[0];
      var f := frames[n := frames[n][1..]];
      SweepKeepsOrder(names[1..], f, expected);
      var rest := Sweep(names[1..], f, expected).0;
      if frames[n][0] != expected {
        SubsequenceOfTail(rest, names);
      } else {
        assert ([n] + rest)[1..] == rest;
      }
    }
  }

  lemma SubsequenceOfTail(a: seq<string>, b: seq<string>)
    requires b != [] && IsSubsequence(a, b[1..])
    ensures IsSubsequence(a, b)
  {
  }

  /** One step of the sweep, read at position `i` of the list. */
  lemma SweepAt(names: seq<string>, i: nat, frames: map<string, seq<i32>>, expected: i32)
    requires i < |names| && Dequeueable(names[i..], frames)
    ensures var n := names[i]; var f := frames[n := frames[n][1..]];
      && |frames[n]| > 0 && Dequeueable(names[i + 1..], f)
      && Sweep(names[i..], frames, expected) ==
           ((if frames[n][0] == expected then [n] else []) + Sweep(names[i + 1..], f, expected).0,
            Sweep(names[i + 1..], f, expected).1)
  {
    var n := names[i];
    DequeueableTail(names[i..], frames);
    assert names[i..][0] == n && names[i..][1..] == names[i + 1..];
    var rest := Sweep(names[i + 1..], frames[n := frames[n][1..]], expected);
    assert Sweep(names[i..], frames, expected) == (if frames[n][0] == expected then [n] + rest.0 else rest.0, rest.1);
    assert [] + rest.0 == rest.0;
  }

  lemma RemoveAtSlices(s: seq<string>, i: nat)
    requires i < |s|
    ensures (s[..i] + s[i + 1..])[..i] == s[..i] && (s[..i] + s[i + 1..])[i..] == s[i + 1..]
  {
  }

  lemma KeepSlices(s: seq<string>, i: nat, t: seq<string>)
    requires i < |s|
    ensures s[..i + 1] + t == s[..i] + ([s[i]] + t)
  {
    assert s[..i + 1] == s[..i] + [s[i]];
  }

  /** With distinct names, a peer survives the sweep exactly when its front state equals the
      expected state. */
  lemma {:induction false} SweepSurvivors(names: seq<string>, frames: map<string, seq<i32>>, expected: i32, m: string)
    requires Dequeueable(names, frames) && NoDuplicates(names)
    ensures m in Sweep(names, frames, expected).0 <==> m in names && frames[m][0] == expected
    decreases |names|
  {
    if names != [] {
      DequeueableTail(names, frames);
      var n := names[0];
      var f := frames[n := frames[n][1..]];
      assert NoDuplicates(names[1..]);
      SweepSurvivors(names[1..], f, expected, m);
      assert n !in names[1..];
      if m != n && m in names[1..] {
        assert f[m] == frames[m];
      }
    }
  }

  /** With distinct names, the sweep dequeues exactly the front state of every listed queue
      and touches no other queue. */
  lemma {:induction false} SweepDequeuesFront(names: seq<string>, frames: map<string, seq<i32>>, expected: i32, m: string)
    requires Dequeueable(names, frames) && NoDuplicates(names) && m in frames
    ensures Sweep(names, frames, expected).1[m] == if m in names then frames[m][1..] else frames[m]
    decreases |names|
  {
    if names != [] {
      DequeueableTail(names, frames);
      var n := names[0];
      var f := frames[n := frames[n][1..]];
      assert NoDuplicates(names[1..]);
      SweepDequeuesFront(names[1..], f, expected, m);
      assert n !in names[1..];
    }
  }

  lemma {:induction false} SumOverUpdate(names: seq<string>, events: map<string, seq<i32>>, n: string, q: seq<i32>)
    requires forall x :: x in names ==> x in events
    requires n !in names
    ensures SumOver(names, events[n := q]) == SumOver(names, events)
    decreases |names|
  {
    if names != [] {
      SumOverUpdate(names[1..], events, n, q);
    }
  }

  /** With distinct names, the drain adds the sum of the listed queues to the accumulator,
      wrapped once to int32. */
  lemma {:induction false} DrainPeersSum(names: seq<string>, events: map<string, seq<i32>>, acc: i32)
    requires forall n :: n in names ==> n in events
    requires NoDuplicates(names)
    ensures DrainPeers(names, events, acc).0 == ToInt32(acc + SumOver(names, events))
    decreases |names|
  {
    if names != [] {
      var n := names[0];
      assert NoDuplicates(names[1..]);
      assert n !in names[1..];
      var a := Accumulate(acc, events[n]);
      var rest := SumOver(names[1..], events);
      DrainPeersSum(names[1..], events[n := []], a);
      SumOverUpdate(names[1..], events, n, []);
      AccumulateThenAdd(acc, events[n], rest);
      assert SumOver(names, events) == Sum(events[n]) + rest;
    }
  }

  /** Wrapping after each dequeued delta and then adding more is wrapping the whole sum once. */
  lemma AccumulateThenAdd(acc: i32, q: seq<i32>, more: int)
    ensures ToInt32(Accumulate(acc, q) + more) == ToInt32(acc + Sum(q) + more)
  {
    ToInt32Absorbs(acc + Sum(q), more);
  }

  /** The drain empties every listed queue and leaves every other queue as it was. */
  lemma {:induction false} DrainPeersEmpties(names: seq<string>, events: map<string, seq<i32>>, acc: i32, m: string)
    requires forall n :: n in names ==> n in events
    requires m in events
    ensures DrainPeers(names, events, acc).1[m] == if m in names then [] else events[m]
    decreases |names|
  {
    if names != [] {
      var n := names[0];
      DrainPeersEmpties(names[1..], events[n := []], Accumulate(acc, events[n]), m);
    }
  }

  /** The eviction half of an advance, for distinct names: the expected state is dequeued,
      survivors are the peers whose front state matched it, kept in their order, and every
      listed state queue loses its front while no other queue changes. */
  lemma EvictEffect(v: UserView, m: string)
    requires CanAdvance(v) && NoDuplicates(v.otherPeers)
    ensures var w := Evict(v);
      && w.localStateQueue == v.localStateQueue[1..]
      && IsSubsequence(w.otherPeers, v.otherPeers) && NoDuplicates(w.otherPeers)
      && (m in w.otherPeers <==> m in v.otherPeers && v.frames[m][0] == v.localStateQueue[0])
      && (m in v.frames ==> w.frames[m] == if m in v.otherPeers then v.frames[m][1..] else v.frames[m])
      && w.currentState == v.currentState && w.events == v.events && w.localGameEvents == v.localGameEvents
  {
    var e := v.localStateQueue[0];
    SweepKeepsOrder(v.otherPeers, v.frames, e);
    SweepSurvivors(v.otherPeers, v.frames, e, m);
    if m in v.frames {
      SweepDequeuesFront(v.otherPeers, v.frames, e, m);
    }
    SubsequenceNoDuplicates(Sweep(v.otherPeers, v.frames, e).0, v.otherPeers);
  }

  /** The folding half of an advance, for distinct names: the accumulator grows by the listed
      peers' queued deltas plus the local ones, wrapped once; those queues end empty and every
      other peer's deltas stay queued. */
  lemma FoldEventsEffect(u: UserView, m: string)
    requires Tracked(u) && NoDuplicates(u.otherPeers)
    ensures var w := FoldEvents(u);
      && w.currentState == ToInt32(u.currentState + SumOver(u.otherPeers, u.events) + Sum(u.localGameEvents))
      && (m in u.events ==> w.events[m] == if m in u.otherPeers then [] else u.events[m])
      && w.localGameEvents == []
      && w.otherPeers == u.otherPeers && w.frames == u.frames && w.localStateQueue == u.localStateQueue
  {
    DrainPeersSum(u.otherPeers, u.events, u.currentState);
    if m in u.events {
      DrainPeersEmpties(u.otherPeers, u.events, u.currentState, m);
    }
    ToInt32Absorbs(u.currentState + SumOver(u.otherPeers, u.events), Sum(u.localGameEvents));
  }

  /** What one advance does to a user whose listed peers are distinct: evicted peers' deltas
      are never folded in and stay queued; survivors' and local deltas are folded and emptied. */
  lemma AdvanceEffect(v: UserView, m: string)
    requires CanAdvance(v) && Tracked(v) && NoDuplicates(v.otherPeers)
    ensures var w := Advance(v);
      && (m in w.otherPeers <==> m in v.otherPeers && v.frames[m][0] == v.localStateQueue[0])
      && w.currentState == ToInt32(v.currentState + SumOver(w.otherPeers, v.events) + Sum(v.localGameEvents))
      && (m in v.events ==> w.events[m] == if m in w.otherPeers then [] else v.events[m])
      && (m in v.frames ==> w.frames[m] == if m in v.otherPeers then v.frames[m][1..] else v.frames[m])
  {
    EvictEffect(v, m);
    FoldEventsEffect(Evict(v), m);
  }

  lemma {:induction false} SubsequenceNoDuplicates(a: seq<string>, b: seq<string>)
    requires IsSubsequence(a, b) && NoDuplicates(b)
    ensures NoDuplicates(a)
    decreases |b|
  {
    if a != [] && b != [] {
      assert NoDuplicates(b[1..]);
      if a[0] == b[0] && IsSubsequence(a[1..], b[1..]) {
        SubsequenceNoDuplicates(a[1..], b[1..]);
        SubsequenceMembers(a[1..], b[1..]);
        assert a == [a[0]] + a[1..];
        forall i, j | 0 <= i < j < |a| ensures a[i] != a[j] {
          if i == 0 {
            assert a[j] == a[1..][j - 1];
            assert a[j] in b[1..];
          } else {
            assert a[i] == a[1..][i - 1] && a[j] == a[1..][j - 1];
          }
        }
      } else {
        SubsequenceNoDuplicates(a, b[1..]);
      }
    }
  }

  lemma {:induction false} SubsequenceMembers(a: seq<string>, b: seq<string>)
    requires IsSubsequence(a, b)
    ensures forall x :: x in a ==> x in b
    decreases |b|
  {
    if a != [] && b != [] {
      if a[0] == b[0] && IsSubsequence(a[1..], b[1..]) {
        SubsequenceMembers(a[1..], b[1..]);
        assert a == [a[0]] + a[1..];
      } else {
        SubsequenceMembers(a, b[1..]);
      }
    }
  }

  /** Lockstep liveness: when every listed peer contributed exactly one batch, one advance
      consumes it, and the barrier stays closed until each survivor contributes again. */
  lemma OneAdvancePerBatch(v: UserView)
    requires Tracked(v) && NoDuplicates(v.otherPeers) && |v.localStateQueue| > 0
    requires forall n :: n in v.otherPeers ==> |v.frames[n]| == 1
    ensures CanAdvance(v)
    ensures Advance(v).otherPeers != [] ==> !ReadyToAdvance(Advance(v))
  {
    ReadyCanAdvance(v);
    var w := Advance(v);
    if w.otherPeers != [] {
      var m := w.otherPeers[0];
      AdvanceEffect(v, m);
      assert w.frames[m] == [];
    }
  }

  // ---------------------------------------------------------------------------
  // The imperative engine
  // ---------------------------------------------------------------------------

  /** Resetting both queues of each joined name to empty (`new Queue<int>()`). */
  function ResetQueues(m: map<string, seq<i32>>, names: seq<string>): (r: map<string, seq<i32>>)
    ensures r.Keys == m.Keys + set n | n in names
    ensures forall n :: n in names ==> r[n] == []
    ensures forall n :: n in m && n !in names ==> r[n] == m[n]
    decreases |names|
  {
    if names == [] then m
    else ResetQueues(m, names[..|names| - 1])[names[|names| - 1] := []]
  }

  class PeerState {
    var currentState: i32
    var otherPeers: seq<string>
    var localStateQueue: seq<i32>
    var localGameEvents: seq<i32>
    var queuedEvents: seq<GameEvent>
    /** `peerFrameStates[name].stateQueue` for every name. */
    var peerFrameStates: map<string, seq<i32>>
    var peerGameEvents: map<string, seq<i32>>

    function View(): UserView
      reads this
    {
      UserView(currentState, otherPeers, localStateQueue, localGameEvents, queuedEvents, peerFrameStates, peerGameEvents)
    }

    ghost predicate Valid()
      reads this
    {
      Tracked(View())
    }

    /** The fresh state `Main` builds for each user: everything empty. */
    constructor ()
      ensures Valid()
      ensures View() == UserView(0, [], [], [], [], map[], map[])
    {
      currentState := 0;
      otherPeers := [];
      localStateQueue := [];
      localGameEvents := [];
      queuedEvents := [];
      peerFrameStates := map[];
      peerGameEvents := map[];
    }

    /** `GameStarted(seed)`: the accumulator starts at the seed. */
    method GameStarted(seed: i32)
      requires Valid()
      modifies this
      ensures Valid()
      ensures View() == old(View()).(currentState := seed)
    {
      currentState := seed;
    }

    /** `PlayerJoined(username)`: fresh empty queues for the name, appended to `otherPeers`. */
    method PlayerJoined(username: string)
      requires Valid()
      modifies this
      ensures Valid()
      ensures View() == old(View()).(otherPeers := old(otherPeers) + [username],
        frames := old(peerFrameStates)[username := []], events := old(peerGameEvents)[username := []])
    {
      peerGameEvents := peerGameEvents[username := []];
      peerFrameStates := peerFrameStates[username := []];
      otherPeers := otherPeers + [username];
    }

    /** `JoinGame(otherPeers)`: the list becomes exactly the given names, in order, each with
        fresh empty queues. */
    method JoinGame(names: seq<string>)
      requires Valid()
      modifies this
      ensures Valid()
      ensures View() == old(View()).(otherPeers := names,
        frames := ResetQueues(old(peerFrameStates), names), events := ResetQueues(old(peerGameEvents), names))
    {
      otherPeers := [];
      var i := 0;
      while i < |names|
        invariant 0 <= i <= |names|
        invariant otherPeers == names[..i]
        invariant peerFrameStates == ResetQueues(old(peerFrameStates), names[..i])
        invariant peerGameEvents == ResetQueues(old(peerGameEvents), names[..i])
        invariant View() == old(View()).(otherPeers := otherPeers, frames := peerFrameStates, events := peerGameEvents)
      {
        assert names[..i + 1][..i] == names[..i];
        peerGameEvents := peerGameEvents[names[i] := []];
        peerFrameStates := peerFrameStates[names[i] := []];
        otherPeers := otherPeers + [names[i]];
        i := i + 1;
      }
      assert names[..i] == names;
    }

    /** `CreateGameData`: writes the state and at most one queued event, dequeuing it. */
    method CreateGameData() returns (data: seq<byte>)
      requires Valid()
      modifies this
      ensures Valid()
      ensures data == GameDataBytes(old(currentState), old(queuedEvents))
      ensures View() == old(View()).(queuedEvents := if old(queuedEvents) == [] then [] else old(queuedEvents)[1..])
    {
      data := [];
      data := data + I32Bytes(GameStateTag);
      data := data + I32Bytes(currentState);
      if |queuedEvents| > 0 {
        data := data + I32Bytes(GameEventTag);
        var e := queuedEvents[0];
        queuedEvents := queuedEvents[1..];
        data := data + I32Bytes(e.mEventData);
      }
    }

    /** One tick of the driver loop for this user: optionally queue a new event (also kept
        locally), remember the current state as the one peers must report, and build the
        game data to send. */
    method Tick(withEvent: bool, gameEvent: i32) returns (data: seq<byte>)
      requires Valid()
      modifies this
      ensures Valid()
      ensures var queued := old(queuedEvents) + (if withEvent then [GameEvent(GameEventTag, gameEvent)] else []);
        && data == GameDataBytes(old(currentState), queued)
        && View() == old(View()).(
             localStateQueue := old(localStateQueue) + [old(currentState)],
             localGameEvents := old(localGameEvents) + (if withEvent then [gameEvent] else []),
             queuedEvents := if queued == [] then [] else queued[1..])
    {
      if withEvent {
        queuedEvents := queuedEvents + [GameEvent(GameEventTag, gameEvent)];
        localGameEvents := localGameEvents + [gameEvent];
      }
      localStateQueue := localStateQueue + [currentState];
      data := CreateGameData();
    }

    /** `ParseGameData(peer, data)` for the sender's name: reported states go to its state
        queue and deltas to its event queue, in stream order. A missing dictionary entry
        throws, so the entries are required when something is to be enqueued. */
    method ParseGameData(sender: string, data: seq<byte>)
      requires Valid()
      requires States(Entries(data, 0)) != [] ==> sender in peerFrameStates
      requires Deltas(Entries(data, 0)) != [] ==> sender in peerGameEvents
      modifies this
      ensures Valid()
      ensures View() == old(View()).(
        frames := Enqueue(old(peerFrameStates), sender, States(Entries(data, 0))),
        events := Enqueue(old(peerGameEvents), sender, Deltas(Entries(data, 0))))
    {
      ghost var v0 := View();
      var frames, events := peerFrameStates, peerGameEvents;
      var pos := 0;
      while true
        invariant 0 <= pos <= |data|
        invariant View() == v0
        invariant frames.Keys == v0.frames.Keys && events.Keys == v0.events.Keys
        invariant States(Entries(data, pos)) != [] ==> sender in frames
        invariant Deltas(Entries(data, pos)) != [] ==> sender in events
        invariant Enqueue(v0.frames, sender, States(Entries(data, 0))) == Enqueue(frames, sender, States(Entries(data, pos)))
        invariant Enqueue(v0.events, sender, Deltas(Entries(data, 0))) == Enqueue(events, sender, Deltas(Entries(data, pos)))
        decreases |data| - pos
      {
        if |data| < pos + 4 {
          break;
        }
        var eventType := ReadI32(data, pos);
        if eventType == GameStateTag || eventType == GameEventTag {
          if |data| < pos + 8 {
            break;
          }
          var value := ReadI32(data, pos + 4);
          EntriesStep(data, pos);
          if eventType == GameStateTag {
            EnqueueOne(frames, sender, value, States(Entries(data, pos + 8)));
            frames := frames[sender := frames[sender] + [value]];
          } else {
            EnqueueOne(events, sender, value, Deltas(Entries(data, pos + 8)));
            events := events[sender := events[sender] + [value]];
          }
          pos := pos + 8;
        } else {
          assert Entries(data, pos) == Entries(data, pos + 4);
          pos := pos + 4;
        }
      }
      assert Entries(data, pos) == [];
      peerFrameStates, peerGameEvents := frames, events;
    }

    /** The barrier test for this user, as `CheckGameStates`'s first loop performs it. */
    predicate Ready()
      reads this
    {
      ReadyToAdvance(View())
    }

    /** The inner loop of `CheckGameStates`' barrier test for this user. */
    method HasAllStates() returns (ready: bool)
      requires Valid()
      ensures ready == Ready()
    {
      ready := true;
      var i := 0;
      while i < |otherPeers|
        invariant 0 <= i <= |otherPeers|
        invariant ready == forall m :: 0 <= m < i ==> |peerFrameStates[otherPeers[m]]| > 0
      {
        if |peerFrameStates[otherPeers[i]]| == 0 {
          ready := false;
        }
        i := i + 1;
      }
    }

    /** The eviction loop of `CheckGameStates` for this user. */
    method DropDivergentPeers()
      requires Valid() && CanAdvance(View())
      modifies this
      ensures Valid()
      ensures View() == Evict(old(View()))
    {
      ghost var v0 := View();
      var expectedState := localStateQueue[0];
      localStateQueue := localStateQueue[1..];
      var names, frames := otherPeers, peerFrameStates;
      ghost var swept := Sweep(names, frames, expectedState);
      assert Evict(v0) == v0.(otherPeers := swept.0, frames := swept.1, localStateQueue := localStateQueue);
      var i := 0;
      assert names[i..] == names && names[..i] + swept.0 == swept.0;
      while i < |names|
        invariant 0 <= i <= |names|
        invariant View() == v0.(localStateQueue := v0.localStateQueue[1..])
        invariant Dequeueable(names[i..], frames)
        invariant swept.0 == names[..i] + Sweep(names[i..], frames, expectedState).0
        invariant swept.1 == Sweep(names[i..], frames, expectedState).1
        decreases |names| - i
      {
        var otherPeerName := names[i];
        SweepAt(names, i, frames, expectedState);
        var peerState := frames[otherPeerName][0];
        frames := frames[otherPeerName := frames[otherPeerName][1..]];
        if peerState != expectedState {
          RemoveAtSlices(names, i);
          names := names[..i] + names[i + 1..];
        } else {
          KeepSlices(names, i, Sweep(names[i + 1..], frames, expectedState).0);
          i := i + 1;
        }
      }
      assert names[i..] == [] && names[..i] == names;
      assert Sweep(names[i..], frames, expectedState) == ([], frames);
      assert swept.0 == names && swept.1 == frames;
      otherPeers, peerFrameStates := names, frames;
      assert View() == Evict(v0);
    }

    /** The drain loops of `CheckGameStates` for this user. */
    method ApplyGameEvents()
      requires Valid()
      modifies this
      ensures Valid()
      ensures View() == FoldEvents(old(View()))
    {
      ghost var v0 := View();
      var state, events := currentState, peerGameEvents;
      ghost var drained := DrainPeers(otherPeers, events, state);
      var i := 0;
      assert otherPeers[i..] == otherPeers;
      while i < |otherPeers|
        invariant 0 <= i <= |otherPeers|
        invariant View() == v0
        invariant events.Keys == v0.events.Keys
        invariant drained == DrainPeers(otherPeers[i..], events, state)
      {
        var otherPeerName := otherPeers[i];
        assert otherPeers[i..][1..] == otherPeers[i + 1..];
        state := DrainQueue(state, events[otherPeerName]);
        events := events[otherPeerName := []];
        i := i + 1;
      }
      assert otherPeers[i..] == [];
      state := DrainQueue(state, localGameEvents);
      currentState, peerGameEvents, localGameEvents := state, events, [];
      assert View() == FoldEvents(v0);
    }
  }

  /** `while (q.Count > 0) acc += q.Dequeue();`, on a copy of the queue. */
  method DrainQueue(acc: i32, q: seq<i32>) returns (r: i32)
    ensures r == Accumulate(acc, q)
  {
    r := acc;
    var rest := q;
    while |rest| > 0
      invariant Accumulate(r, rest) == Accumulate(acc, q)
      decreases |rest|
    {
      r := ToInt32(r as int + rest[0]);
      rest := rest[1..];
    }
  }

  /** The static state of `Program`: the users in the order of the `peers` list (by their
      `CurrentUser`), their engine states, and the shared frame counter. */
  class Simulation {
    var users: seq<string>
    var peerStates: map<string, PeerState>
    var currentFrame: int

    ghost function StateObjects(): set<PeerState>
      reads this
    {
      set u | u in users && u in peerStates :: peerStates[u]
    }

    ghost predicate Valid()
      reads this, StateObjects()
    {
      && (forall u :: u in users ==> u in peerStates && peerStates[u].Valid())
      && (forall i, j :: 0 <= i < j < |users| ==> peerStates[users[i]] != peerStates[users[j]])
    }

    /** The barrier: every user has a state queued from every peer it lists. */
    ghost predicate AllReady()
      reads this, StateObjects()
      requires Valid()
    {
      forall j :: 0 <= j < |users| ==> peerStates[users[j]].Ready()
    }

    /** The advance may dequeue only what is there: the barrier does not look at the local
        expected-state queues, and a name listed twice needs two queued states. */
    ghost predicate AllCanAdvance()
      reads this, StateObjects()
      requires Valid()
    {
      forall j :: 0 <= j < |users| ==> CanAdvance(peerStates[users[j]].View())
    }

    /** One fresh `PeerState`, in its initial state, per name. */
    static method FreshStates(names: seq<string>) returns (states: map<string, PeerState>)
      requires NoDuplicates(names)
      ensures forall j :: 0 <= j < |names| ==> names[j] in states && fresh(states[names[j]])
      ensures forall j :: 0 <= j < |names| ==> states[names[j]].View() == UserView(0, [], [], [], [], map[], map[])
      ensures forall i, j :: 0 <= i < j < |names| ==> states[names[i]] != states[names[j]]
    {
      states := map[];
      var k := 0;
      while k < |names|
        invariant 0 <= k <= |names|
        invariant forall j :: 0 <= j < k ==> names[j] in states && fresh(states[names[j]])
        invariant forall j :: 0 <= j < k ==> states[names[j]].View() == UserView(0, [], [], [], [], map[], map[])
        invariant forall i, j :: 0 <= i < j < k ==> states[names[i]] != states[names[j]]
        invariant forall u :: u in states ==> u in names[..k]
      {
        var st := new PeerState();
        states := states[names[k] := st];
        k := k + 1;
      }
    }

    /** The setup `Main` performs: one fresh `PeerState` per user name. */
    constructor (names: seq<string>)
      requires NoDuplicates(names)
      ensures Valid() && users == names && currentFrame == 0
      ensures forall j :: 0 <= j < |users| ==> peerStates[users[j]].View() == UserView(0, [], [], [], [], map[], map[])
    {
      var states := FreshStates(names);
      users := names;
      currentFrame := 0;
      peerStates := states;
      new;
      forall u | u in users ensures u in peerStates && peerStates[u].Valid() {
        var j :| 0 <= j < |users| && users[j] == u;
      }
    }

    /** The first loop of `CheckGameStates`: the barrier test over every user. */
    method AllReported() returns (shouldExecuteFrame: bool)
      requires Valid()
      ensures shouldExecuteFrame == AllReady()
    {
      shouldExecuteFrame := true;
      var k := 0;
      while k < |users|
        invariant 0 <= k <= |users|
        invariant shouldExecuteFrame == forall j :: 0 <= j < k ==> peerStates[users[j]].Ready()
      {
        var ready := peerStates[users[k]].HasAllStates();
        shouldExecuteFrame := shouldExecuteFrame && ready;
        k := k + 1;
      }
    }

    /** The second loop of `CheckGameStates`: each user drops its divergent peers. */
    method DropAllDivergent()
      requires Valid() && AllCanAdvance()
      modifies StateObjects()
      ensures Valid()
      ensures forall j :: 0 <= j < |users| ==> peerStates[users[j]].View() == Evict(old(peerStates[users[j]].View()))
    {
      var k := 0;
      while k < |users|
        invariant 0 <= k <= |users|
        invariant Valid()
        invariant forall j :: 0 <= j < k ==> peerStates[users[j]].View() == Evict(old(peerStates[users[j]].View()))
        invariant forall j :: k <= j < |users| ==> peerStates[users[j]].View() == old(peerStates[users[j]].View())
      {
        var st := peerStates[users[k]];
        assert st in StateObjects();
        label Before:
        st.DropDivergentPeers();
        forall j | 0 <= j < |users| && j != k
          ensures peerStates[users[j]].View() == old@Before(peerStates[users[j]].View())
        {
          assert peerStates[users[j]] != st;
        }
        k := k + 1;
      }
    }

    /** The third loop of `CheckGameStates`: each user folds the queued deltas. */
    method ApplyAllEvents()
      requires Valid()
      modifies StateObjects()
      ensures Valid()
      ensures forall j :: 0 <= j < |users| ==> peerStates[users[j]].View() == FoldEvents(old(peerStates[users[j]].View()))
    {
      var k := 0;
      while k < |users|
        invariant 0 <= k <= |users|
        invariant Valid()
        invariant forall j :: 0 <= j < k ==> peerStates[users[j]].View() == FoldEvents(old(peerStates[users[j]].View()))
        invariant forall j :: k <= j < |users| ==> peerStates[users[j]].View() == old(peerStates[users[j]].View())
      {
        var st := peerStates[users[k]];
        assert st in StateObjects();
        label Before:
        st.ApplyGameEvents();
        forall j | 0 <= j < |users| && j != k
          ensures peerStates[users[j]].View() == old@Before(peerStates[users[j]].View())
        {
          assert peerStates[users[j]] != st;
        }
        k := k + 1;
      }
    }

    /** `CheckGameStates`: on a stall nothing changes; otherwise every user's state advances
        by one frame and the shared counter goes up by one. */
    method CheckGameStates() returns (shouldExecuteFrame: bool)
      requires Valid()
      requires AllReady() ==> AllCanAdvance()
      modifies StateObjects(), this
      ensures Valid() && users == old(users) && peerStates == old(peerStates)
      ensures shouldExecuteFrame == old(AllReady())
      ensures !shouldExecuteFrame ==> (currentFrame == old(currentFrame) &&
        forall j :: 0 <= j < |users| ==> peerStates[users[j]].View() == old(peerStates[users[j]].View()))
      ensures shouldExecuteFrame ==> (currentFrame == old(currentFrame) + 1 &&
        forall j :: 0 <= j < |users| ==> peerStates[users[j]].View() == Advance(old(peerStates[users[j]].View())))
    {
      shouldExecuteFrame := AllReported();
      if shouldExecuteFrame {
        DropAllDivergent();
        currentFrame := currentFrame + 1;
        ApplyAllEvents();
      }
    }
  }
}
