/** The notification list of the storefront's client
    (frontend/src/context/NotificationContext.js): the reducer over tagged
    actions and the initial state. `now` stands for `Date.now()`, which the
    reducer uses as the id of a new entry. */
module NotificationContext {
  import opened Common
  import Seqs

  datatype Notification = Notification(id: int, message: string, kind: string, duration: Option<int>)

  /** The dispatched actions; `Unrecognised` is any other `type`. */
  datatype NotificationAction =
    | AddNotification(payload: Notification, now: int)
    | RemoveNotification(id: int)
    | ClearAll
    | Unrecognised(kind: string)

  /** `initialState`: no notifications. */
  function InitialState(): (r: seq<Notification>)
    ensures |r| == 0
  {
    []
  }

  /** The test of REMOVE_NOTIFICATION's filter. */
  function KeepsUnless(id: int): Notification -> bool
  {
    (n: Notification) => n.id != id
  }

  /** `notificationReducer`. ADD_NOTIFICATION appends one entry, the payload
      with its id replaced by the time of the dispatch, after the unchanged
      earlier entries; REMOVE_NOTIFICATION deletes every entry with the
      given id and keeps every other one; CLEAR_ALL empties the list; any
      other action changes nothing. */
  function Reduce(state: seq<Notification>, action: NotificationAction): (r: seq<Notification>)
    ensures action.AddNotification? ==>
              |r| == |state| + 1 && r[..|state|] == state && r[|state|] == action.payload.(id := action.now)
    ensures action.RemoveNotification? ==>
              && (forall i :: 0 <= i < |r| ==> r[i].id != action.id)
              && (forall i :: 0 <= i < |state| && state[i].id != action.id ==> state[i] in r)
              && (forall i :: 0 <= i < |r| ==> r[i] in state)
    ensures action.ClearAll? ==> r == []
    ensures action.Unrecognised? ==> r == state
  {
    match action
    case AddNotification(payload, now) => state + [payload.(id := now)]
    case RemoveNotification(id) => Seqs.Filter(state, KeepsUnless(id))
    case ClearAll => []
    case Unrecognised(_) => state
  }

  /** Removal keeps the surviving entries in their order: removing from a
      list split in two removes from each part. */
  lemma RemoveKeepsOrder(a: seq<Notification>, b: seq<Notification>, id: int)
    ensures Reduce(a + b, RemoveNotification(id)) == Reduce(a, RemoveNotification(id)) + Reduce(b, RemoveNotification(id))
  {
    Seqs.FilterConcat(a, b, KeepsUnless(id));
  }

  /** Removing an id that no entry carries leaves the list as it was. */
  lemma RemoveAbsent(state: seq<Notification>, id: int)
    requires forall i :: 0 <= i < |state| ==> state[i].id != id
    ensures Reduce(state, RemoveNotification(id)) == state
  {
    Seqs.FilterKeepsAll(state, KeepsUnless(id));
  }

  /** Removing the same id twice is removing it once. */
  lemma RemoveTwice(state: seq<Notification>, id: int)
    ensures Reduce(Reduce(state, RemoveNotification(id)), RemoveNotification(id)) == Reduce(state, RemoveNotification(id))
  {
    Seqs.FilterIdempotent(state, KeepsUnless(id));
  }

  /** Removing the id a new entry was given takes that entry away again,
      together with every earlier entry added at the same millisecond. */
  lemma RemoveAfterAdd(state: seq<Notification>, n: Notification, now: int)
    ensures Reduce(Reduce(state, AddNotification(n, now)), RemoveNotification(now)) == Reduce(state, RemoveNotification(now))
  {
    RemoveKeepsOrder(state, [n.(id := now)], now);
  }

  /** Removing another id keeps the new entry, still last. */
  lemma RemoveOtherAfterAdd(state: seq<Notification>, n: Notification, now: int, id: int)
    requires id != now
    ensures Reduce(Reduce(state, AddNotification(n, now)), RemoveNotification(id))
              == Reduce(state, RemoveNotification(id)) + [n.(id := now)]
  {
    RemoveKeepsOrder(state, [n.(id := now)], id);
  }

  /** CLEAR_ALL returns to the initial state, and the first ADD to the
      initial state yields exactly the one stamped entry. */
  lemma ClearAllRestoresInitial(state: seq<Notification>, n: Notification, now: int)
    ensures Reduce(state, ClearAll) == InitialState()
    ensures Reduce(InitialState(), AddNotification(n, now)) == [n.(id := now)]
  {
  }
}
