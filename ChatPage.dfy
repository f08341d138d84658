/**
 * Membership extraction of the chat page: a sequence of room state events is
 * filtered down to its `m.room.member` events, which are indexed by their
 * state key (the user id the membership is about). The map is filled with
 * `emplace`, which never overwrites, so the earliest event for a user wins.
 */
module ChatPage {

  /** Value of the `membership` field of an `m.room.member` event. */
  datatype MembershipState = Join | Invite | Leave | Ban | Knock

  /** Content of an `m.room.member` event. */
  datatype MemberContent = MemberContent(
    membership: MembershipState,
    displayName: string,
    avatarUrl: string)

  /** `StateEvent<state::Member>`: a membership event with its envelope. */
  datatype MemberEvent = MemberEvent(
    eventId: string,
    sender: string,
    stateKey: string,
    originServerTs: nat,
    content: MemberContent)

  /** The other alternatives a state-event variant can hold. */
  datatype StateKind =
    | Aliases | Avatar | CanonicalAlias | Create | GuestAccess
    | HistoryVisibility | JoinRules | Name | PowerLevels | Topic

  /** One element of the collection: a variant over the state event types. */
  datatype StateEvent =
    | Member(event: MemberEvent)
    | OtherState(kind: StateKind, stateKey: string)

  type Memberships = map<string, MemberEvent>

  /** True when `e` holds the `Member` alternative with state key `k`. */
  predicate IsMemberFor(e: StateEvent, k: string)
  {
    e.Member? && e.event.stateKey == k
  }

  /** One iteration of the loop: `emplace` the event if it is a membership. */
  function Emplace(m: Memberships, e: StateEvent): Memberships
  {
    match e
    case Member(ev) => if ev.stateKey in m then m else m[ev.stateKey := ev]
    case OtherState(_, _) => m
  }

  /** The map the loop has built after visiting every element of `events`. */
  function Collect(events: seq<StateEvent>): Memberships
    decreases |events|
  {
    if events == [] then map[]
    else Emplace(Collect(events[..|events| - 1]), events[|events| - 1])
  }

  /** The `Member` alternatives of `events`, in input order. */
  function OnlyMembers(events: seq<StateEvent>): (r: seq<StateEvent>)
    decreases |events|
  {
    if events == [] then []
    else
      var last := events[|events| - 1];
      OnlyMembers(events[..|events| - 1]) + (if last.Member? then [last] else [])
  }

  /** `getMemberships`: the loop over the collection with `emplace`. */
  method GetMemberships(collection: seq<StateEvent>) returns (memberships: Memberships)
    ensures memberships == Collect(collection)
    ensures forall k :: k in memberships <==>
      exists i :: 0 <= i < |collection| && IsMemberFor(collection[i], k)
    ensures forall i | 0 <= i < |collection| && collection[i].Member? &&
                       (forall j :: 0 <= j < i ==> !IsMemberFor(collection[j], collection[i].event.stateKey)) ::
              collection[i].event.stateKey in memberships &&
              memberships[collection[i].event.stateKey] == collection[i].event
    ensures |memberships| <= |OnlyMembers(collection)| <= |collection|
  {
    memberships := map[];
    var n := 0;
    while n < |collection|
      invariant 0 <= n <= |collection|
      invariant memberships == Collect(collection[..n])
    {
      assert collection[..n + 1][..n] == collection[..n];
      memberships := Emplace(memberships, collection[n]);
      n := n + 1;
    }
    assert collection[..n] == collection;
    forall k ensures k in memberships <==>
      exists i :: 0 <= i < |collection| && IsMemberFor(collection[i], k)
    {
      CollectKeys(collection, k);
    }
    forall i | 0 <= i < |collection| && collection[i].Member? &&
      (forall j :: 0 <= j < i ==> !IsMemberFor(collection[j], collection[i].event.stateKey))
      ensures collection[i].event.stateKey in memberships &&
              memberships[collection[i].event.stateKey] == collection[i].event
    {
      CollectFirstWins(collection, i);
    }
    CollectSize(collection);
  }

  /** Soundness and completeness: the keys are exactly the state keys of
      the `Member` events of the input. */
  lemma {:induction false} CollectKeys(events: seq<StateEvent>, k: string)
    ensures k in Collect(events) <==>
      exists i :: 0 <= i < |events| && IsMemberFor(events[i], k)
    decreases |events|
  {
    if events != [] {
      var init, last := events[..|events| - 1], events[|events| - 1];
      CollectKeys(init, k);
      if k in Collect(events) && !IsMemberFor(last, k) {
        var i :| 0 <= i < |init| && IsMemberFor(init[i], k);
        assert events[i] == init[i];
      }
      if exists i :: 0 <= i < |events| && IsMemberFor(events[i], k) {
        var i :| 0 <= i < |events| && IsMemberFor(events[i], k);
        if i < |init| {
          assert init[i] == events[i];
        }
      }
    }
  }

  /** First wins: the value stored for a key is its earliest `Member` event. */
  lemma {:induction false} CollectFirstWins(events: seq<StateEvent>, i: nat)
    requires i < |events| && events[i].Member?
    requires forall j :: 0 <= j < i ==> !IsMemberFor(events[j], events[i].event.stateKey)
    ensures events[i].event.stateKey in Collect(events)
    ensures Collect(events)[events[i].event.stateKey] == events[i].event
    decreases |events|
  {
    var init, last := events[..|events| - 1], events[|events| - 1];
    var k := events[i].event.stateKey;
    if i == |events| - 1 {
      CollectKeys(init, k);
    } else {
      assert init[i] == events[i];
      forall j | 0 <= j < i ensures !IsMemberFor(init[j], k) {
        assert init[j] == events[j];
      }
      CollectFirstWins(init, i);
    }
  }

  /** A later event for a key already present leaves the map unchanged. */
  lemma DuplicateIgnored(events: seq<StateEvent>, ev: MemberEvent)
    requires ev.stateKey in Collect(events)
    ensures Collect(events + [Member(ev)]) == Collect(events)
  {
  }

  /** Filtering: events that are not memberships contribute nothing. */
  lemma {:induction false} CollectIgnoresOtherState(events: seq<StateEvent>)
    ensures Collect(events) == Collect(OnlyMembers(events))
    decreases |events|
  {
    if events != [] {
      var init, last := events[..|events| - 1], events[|events| - 1];
      CollectIgnoresOtherState(init);
      if last.Member? {
        var f := OnlyMembers(init) + [last];
        assert f[..|f| - 1] == OnlyMembers(init);
      } else {
        assert OnlyMembers(events) == OnlyMembers(init);
      }
    }
  }

  /** Size bound: at most one entry per `Member` event, hence per event. */
  lemma {:induction false} CollectSize(events: seq<StateEvent>)
    ensures |Collect(events)| <= |OnlyMembers(events)| <= |events|
    decreases |events|
  {
    if events != [] {
      CollectSize(events[..|events| - 1]);
    }
  }

  /** Without any `Member` event, in particular for an empty input, the
      result is empty. */
  lemma NoMembersEmpty(events: seq<StateEvent>)
    requires forall i :: 0 <= i < |events| ==> !events[i].Member?
    ensures Collect(events) == map[]
  {
  }
}
