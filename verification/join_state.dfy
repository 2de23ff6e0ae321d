/**
 * The join bookkeeping of the native account, as values. Every `joinChat`
 * with an instance registers one `chat-joined` listener and hands out one
 * promise; a listener fires when the event's conversation name is its
 * `room@server` and the event's account is this account. A firing listener
 * records its handle, settles its promise and unregisters itself. A timeout
 * settles the promise but leaves the listener registered.
 */
module JoinState {
  import opened Wrappers

  /** The payload of a `chat-joined` event: `data.conv.name` and `data.account.username`. */
  datatype ChatJoined = ChatJoined(convName: string, username: string)

  /** One registered `chat-joined` callback: the room it waits for, the handle it records, and its promise. */
  datatype Listener = Listener(roomName: string, handle: Option<string>, ticket: nat)

  /** The state of a promise handed out by a join. */
  datatype Settlement = Pending | Joined(event: ChatJoined) | TimedOut

  /** The callback's test: same room name and same account. */
  predicate Fires(l: Listener, ev: ChatJoined, remoteId: string) {
    ev.convName == l.roomName && ev.username == remoteId
  }

  predicate NoneFires(ls: seq<Listener>, ev: ChatJoined, remoteId: string) {
    forall k :: 0 <= k < |ls| ==> !Fires(ls[k], ev, remoteId)
  }

  /** The promise `t` belongs to a listener that fires. */
  predicate FiredFor(ls: seq<Listener>, ev: ChatJoined, remoteId: string, t: nat) {
    exists k :: 0 <= k < |ls| && ls[k].ticket == t && Fires(ls[k], ev, remoteId)
  }

  /**
   * Listeners and promises fit together: every listener's promise exists and
   * has not been resolved, no two listeners share a promise, and every pending
   * promise still has its listener.
   */
  ghost predicate WellFormed(ls: seq<Listener>, ps: seq<Settlement>) {
    TicketsUnresolved(ls, ps) && TicketsDistinct(ls) && PendingListened(ls, ps)
  }

  ghost predicate TicketsUnresolved(ls: seq<Listener>, ps: seq<Settlement>) {
    forall k :: 0 <= k < |ls| ==> ls[k].ticket < |ps| && !ps[ls[k].ticket].Joined?
  }

  ghost predicate TicketsDistinct(ls: seq<Listener>) {
    forall i, j :: 0 <= i < j < |ls| ==> ls[i].ticket != ls[j].ticket
  }

  ghost predicate PendingListened(ls: seq<Listener>, ps: seq<Settlement>) {
    forall t :: 0 <= t < |ps| && ps[t].Pending? ==> exists k :: 0 <= k < |ls| && ls[k].ticket == t
  }

  /** A settled promise never changes again, and promises are never taken away. */
  ghost predicate SettledKept(ps: seq<Settlement>, ps': seq<Settlement>) {
    |ps| <= |ps'| && forall t :: 0 <= t < |ps| && !ps[t].Pending? ==> ps'[t] == ps[t]
  }

  /** The listeners left registered after an event: those that did not fire. */
  function Survivors(ls: seq<Listener>, ev: ChatJoined, remoteId: string): (r: seq<Listener>)
    decreases |ls|
  {
    if ls == [] then []
    else
      var rest := Survivors(ls[..|ls| - 1], ev, remoteId);
      if Fires(ls[|ls| - 1], ev, remoteId) then rest else rest + [ls[|ls| - 1]]
  }

  /** The room handles after each firing listener, in registration order, has set its handle. */
  function RecordHandles(handles: map<string, Option<string>>, ls: seq<Listener>, ev: ChatJoined, remoteId: string): map<string, Option<string>>
    decreases |ls|
  {
    if ls == [] then handles
    else
      var before := RecordHandles(handles, ls[..|ls| - 1], ev, remoteId);
      var l := ls[|ls| - 1];
      if Fires(l, ev, remoteId) then before[l.roomName := l.handle] else before
  }

  /** Each firing listener resolves its promise; a promise already settled stays as it is. */
  function SettleJoined(ps: seq<Settlement>, ls: seq<Listener>, ev: ChatJoined, remoteId: string): seq<Settlement> {
    seq(|ps|, t requires 0 <= t < |ps| => if ps[t].Pending? && FiredFor(ls, ev, remoteId, t) then Joined(ev) else ps[t])
  }

  /** The timer of promise `t` rejects it, if it is still pending. */
  function TimeOut(ps: seq<Settlement>, t: nat): seq<Settlement>
    requires t < |ps|
  {
    if ps[t].Pending? then ps[t := TimedOut] else ps
  }

  /** `Survivors` keeps exactly the listeners that do not fire, in order. */
  lemma {:induction false} SurvivorsSpec(ls: seq<Listener>, ev: ChatJoined, remoteId: string)
    ensures NoneFires(Survivors(ls, ev, remoteId), ev, remoteId)
    ensures forall l :: l in Survivors(ls, ev, remoteId) <==> l in ls && !Fires(l, ev, remoteId)
    ensures NoneFires(ls, ev, remoteId) ==> Survivors(ls, ev, remoteId) == ls
    decreases |ls|
  {
    if ls != [] {
      var init := ls[..|ls| - 1];
      SurvivorsSpec(init, ev, remoteId);
      assert ls == init + [ls[|ls| - 1]];
    }
  }

  /**
   * An event changes the handle of its own room only: to the handle of the
   * last listener that fires, or not at all when none fires.
   */
  lemma {:induction false} RecordHandlesSpec(handles: map<string, Option<string>>, ls: seq<Listener>, ev: ChatJoined, remoteId: string)
    ensures var r := RecordHandles(handles, ls, ev, remoteId);
      forall key :: key != ev.convName ==> (key in r <==> key in handles) && (key in handles ==> r[key] == handles[key])
    ensures NoneFires(ls, ev, remoteId) ==> RecordHandles(handles, ls, ev, remoteId) == handles
    ensures forall k :: 0 <= k < |ls| && Fires(ls[k], ev, remoteId) && (forall j :: k < j < |ls| ==> !Fires(ls[j], ev, remoteId)) ==>
      var r := RecordHandles(handles, ls, ev, remoteId);
      ev.convName in r && r[ev.convName] == ls[k].handle
    decreases |ls|
  {
    if ls != [] {
      var init := ls[..|ls| - 1];
      RecordHandlesSpec(handles, init, ev, remoteId);
      forall k | 0 <= k < |ls| && Fires(ls[k], ev, remoteId) && (forall j :: k < j < |ls| ==> !Fires(ls[j], ev, remoteId))
        ensures var r := RecordHandles(handles, ls, ev, remoteId);
          ev.convName in r && r[ev.convName] == ls[k].handle
      {
        if k < |ls| - 1 {
          assert init[k] == ls[k];
          assert forall j :: k < j < |init| ==> !Fires(init[j], ev, remoteId) by {
            forall j | k < j < |init| ensures !Fires(init[j], ev, remoteId) {
              assert init[j] == ls[j];
            }
          }
        }
      }
      assert NoneFires(ls, ev, remoteId) ==> NoneFires(init, ev, remoteId) by {
        if NoneFires(ls, ev, remoteId) {
          forall j | 0 <= j < |init| ensures !Fires(init[j], ev, remoteId) {
            assert init[j] == ls[j];
          }
        }
      }
    }
  }

  /** An event no listener fires for changes nothing. */
  lemma IgnoredEvent(handles: map<string, Option<string>>, ls: seq<Listener>, ps: seq<Settlement>, ev: ChatJoined, remoteId: string)
    requires NoneFires(ls, ev, remoteId)
    ensures Survivors(ls, ev, remoteId) == ls
    ensures RecordHandles(handles, ls, ev, remoteId) == handles
    ensures SettleJoined(ps, ls, ev, remoteId) == ps
  {
    SurvivorsSpec(ls, ev, remoteId);
    RecordHandlesSpec(handles, ls, ev, remoteId);
    assert forall t :: 0 <= t < |ps| ==> !FiredFor(ls, ev, remoteId, t);
  }

  /** After the first matching event its listeners are gone: the same event again changes nothing. */
  lemma RepeatedEvent(handles: map<string, Option<string>>, ls: seq<Listener>, ps: seq<Settlement>, ev: ChatJoined, remoteId: string)
    ensures var ls', h', ps' := Survivors(ls, ev, remoteId), RecordHandles(handles, ls, ev, remoteId), SettleJoined(ps, ls, ev, remoteId);
      && Survivors(ls', ev, remoteId) == ls'
      && RecordHandles(h', ls', ev, remoteId) == h'
      && SettleJoined(ps', ls', ev, remoteId) == ps'
  {
    SurvivorsSpec(ls, ev, remoteId);
    IgnoredEvent(RecordHandles(handles, ls, ev, remoteId), Survivors(ls, ev, remoteId), SettleJoined(ps, ls, ev, remoteId), ev, remoteId);
  }

  /** Registering a listener with a fresh pending promise keeps listeners and promises well formed. */
  lemma RegisterWellFormed(ls: seq<Listener>, ps: seq<Settlement>, roomName: string, handle: Option<string>)
    requires WellFormed(ls, ps)
    ensures WellFormed(ls + [Listener(roomName, handle, |ps|)], ps + [Pending])
    ensures SettledKept(ps, ps + [Pending])
  {
    var ls', ps' := ls + [Listener(roomName, handle, |ps|)], ps + [Pending];
    forall t | 0 <= t < |ps'| && ps'[t].Pending?
      ensures exists k :: 0 <= k < |ls'| && ls'[k].ticket == t
    {
      if t == |ps| {
        assert ls'[|ls|].ticket == t;
      } else {
        var k :| 0 <= k < |ls| && ls[k].ticket == t;
        assert ls'[k].ticket == t;
      }
    }
  }

  /** An event keeps listeners and promises well formed, and settles only pending promises. */
  lemma EventWellFormed(ls: seq<Listener>, ps: seq<Settlement>, ev: ChatJoined, remoteId: string)
    requires WellFormed(ls, ps)
    ensures WellFormed(Survivors(ls, ev, remoteId), SettleJoined(ps, ls, ev, remoteId))
    ensures SettledKept(ps, SettleJoined(ps, ls, ev, remoteId))
  {
    SurvivorsTicketsDistinct(ls, ev, remoteId);
    EventKeepsUnresolved(ls, ps, ev, remoteId);
    EventKeepsListened(ls, ps, ev, remoteId);
  }

  lemma EventKeepsUnresolved(ls: seq<Listener>, ps: seq<Settlement>, ev: ChatJoined, remoteId: string)
    requires TicketsUnresolved(ls, ps) && TicketsDistinct(ls)
    ensures TicketsUnresolved(Survivors(ls, ev, remoteId), SettleJoined(ps, ls, ev, remoteId))
  {
    var ls', ps' := Survivors(ls, ev, remoteId), SettleJoined(ps, ls, ev, remoteId);
    SurvivorsSpec(ls, ev, remoteId);
    forall k | 0 <= k < |ls'|
      ensures ls'[k].ticket < |ps'| && !ps'[ls'[k].ticket].Joined?
    {
      assert ls'[k] in ls;
      var i :| 0 <= i < |ls| && ls[i] == ls'[k];
      var t := ls[i].ticket;
      assert !FiredFor(ls, ev, remoteId, t) by {
        forall j | 0 <= j < |ls| && ls[j].ticket == t
          ensures !Fires(ls[j], ev, remoteId)
        {
          assert j == i;
        }
      }
    }
  }

  lemma EventKeepsListened(ls: seq<Listener>, ps: seq<Settlement>, ev: ChatJoined, remoteId: string)
    requires PendingListened(ls, ps)
    ensures PendingListened(Survivors(ls, ev, remoteId), SettleJoined(ps, ls, ev, remoteId))
  {
    var ls', ps' := Survivors(ls, ev, remoteId), SettleJoined(ps, ls, ev, remoteId);
    SurvivorsSpec(ls, ev, remoteId);
    forall t | 0 <= t < |ps'| && ps'[t].Pending?
      ensures exists k :: 0 <= k < |ls'| && ls'[k].ticket == t
    {
      var k :| 0 <= k < |ls| && ls[k].ticket == t;
      assert !FiredFor(ls, ev, remoteId, t);
      assert ls[k] in ls';
      var m :| 0 <= m < |ls'| && ls'[m] == ls[k];
    }
  }

  /** Unregistering listeners keeps the tickets of those that remain distinct. */
  lemma {:induction false} SurvivorsTicketsDistinct(ls: seq<Listener>, ev: ChatJoined, remoteId: string)
    requires TicketsDistinct(ls)
    ensures TicketsDistinct(Survivors(ls, ev, remoteId))
    decreases |ls|
  {
    if ls != [] {
      var init := ls[..|ls| - 1];
      SurvivorsTicketsDistinct(init, ev, remoteId);
      SurvivorsSpec(init, ev, remoteId);
      var rest := Survivors(init, ev, remoteId);
      var last := ls[|ls| - 1];
      if !Fires(last, ev, remoteId) {
        forall i | 0 <= i < |rest| ensures rest[i].ticket != last.ticket {
          assert rest[i] in init;
        }
      }
    }
  }

  /** A timeout keeps listeners and promises well formed, and touches only its own pending promise. */
  lemma TimeOutWellFormed(ls: seq<Listener>, ps: seq<Settlement>, t: nat)
    requires WellFormed(ls, ps) && t < |ps|
    ensures WellFormed(ls, TimeOut(ps, t))
    ensures SettledKept(ps, TimeOut(ps, t))
  {
  }

  /**
   * A confirmation that arrives after the timeout still records the handle
   * (the listener was never removed), but the promise stays timed out.
   */
  lemma LateConfirmation(handles: map<string, Option<string>>, ls: seq<Listener>, ps: seq<Settlement>, k: nat, remoteId: string)
    requires k < |ls| && ls[k].ticket < |ps| && ps[ls[k].ticket].Pending?
    requires forall j :: k < j < |ls| ==> ls[j].roomName != ls[k].roomName
    ensures var t, ev := ls[k].ticket, ChatJoined(ls[k].roomName, remoteId);
      var ps' := SettleJoined(TimeOut(ps, t), ls, ev, remoteId);
      var h' := RecordHandles(handles, ls, ev, remoteId);
      && ps'[t] == TimedOut
      && ls[k].roomName in h' && h'[ls[k].roomName] == ls[k].handle
      && ls[k] !in Survivors(ls, ev, remoteId)
  {
    var t, ev := ls[k].ticket, ChatJoined(ls[k].roomName, remoteId);
    assert TimeOut(ps, t)[t] == TimedOut;
    assert forall j :: k < j < |ls| ==> !Fires(ls[j], ev, remoteId);
    RecordHandlesSpec(handles, ls, ev, remoteId);
    SurvivorsSpec(ls, ev, remoteId);
  }

  /** Before its timeout, a matching confirmation resolves the promise with the event. */
  lemma TimelyConfirmation(ls: seq<Listener>, ps: seq<Settlement>, k: nat, remoteId: string)
    requires k < |ls| && ls[k].ticket < |ps| && ps[ls[k].ticket].Pending?
    ensures var ev := ChatJoined(ls[k].roomName, remoteId);
      SettleJoined(ps, ls, ev, remoteId)[ls[k].ticket] == Joined(ev)
  {
    var ev := ChatJoined(ls[k].roomName, remoteId);
    assert FiredFor(ls, ev, remoteId, ls[k].ticket);
  }
}
