/** The subscription controller: the subscribe/unsubscribe toggle as written,
    the toggle its authors evidently meant, and the two listings. */
module Subscriptions {
  import opened Common
  import opened Tables

  /** A Subscription document. The toggle reads and writes the field
      `subscription`; the listings and the dashboard read `subscriber` and
      `channel`. */
  datatype Subscription = Subscription(subscriber: Option<Id>, subscription: Option<Id>, channel: string)

  /** The toggle's lookup `{subscription: userId, channel: name}`. */
  predicate IsToggleRecord(d: Doc<Subscription>, userId: Id, name: string) {
    d.body.subscription == Some(userId) && d.body.channel == name
  }

  /** A record of the toggle's lookup exists. */
  ghost predicate Subscribed(t: seq<Doc<Subscription>>, userId: Id, name: string) {
    exists d :: d in t && IsToggleRecord(d, userId, name)
  }

  /** toggleSubscription as written: 400 without a channel name, then 401
      without a caller; an existing record is deleted (200); otherwise the
      handler throws 400 "Subscription not found" before it reaches the
      create, so the collection never grows. */
  function Toggle(t: seq<Doc<Subscription>>, name: string, userId: Id): (s: Step<Subscription, ()>)
    ensures MissingParam(name) ==> s == Step(Err(400), t)
    ensures !MissingParam(name) && MissingParam(userId) ==> s == Step(Err(401), t)
    ensures s.response.Ok? <==> !MissingParam(name) && !MissingParam(userId) && Subscribed(t, userId, name)
    ensures !MissingParam(name) && !MissingParam(userId) && !Subscribed(t, userId, name) ==> s == Step(Err(400), t)
    ensures s.response.Ok? ==> s.response.status == 200 && |s.table| == |t| - 1
    ensures s.response.Err? ==> s.table == t
    ensures forall d :: d in s.table ==> d in t
    ensures forall d :: !IsToggleRecord(d, userId, name) ==> (d in s.table <==> d in t)
    ensures UniqueIds(t) ==> UniqueIds(s.table)
  {
    if MissingParam(name) then Step(Err(400), t)
    else if MissingParam(userId) then Step(Err(401), t)
    else match FindFirst(t, (d: Doc<Subscription>) => IsToggleRecord(d, userId, name))
      case Some(i) =>
        assert t[i] in t;
        var rest := RemoveAt(t, i);
        RemoveAtKeeps(t, i);
        Step(Ok(200, ()), rest)
      case None =>
        assert !Subscribed(t, userId, name) by {
          forall d | d in t ensures !IsToggleRecord(d, userId, name) {
            var j :| 0 <= j < |t| && t[j] == d;
          }
        }
        Step(Err(400), t)
  }

  /** As written, a caller who is not subscribed can never become subscribed:
      the toggle fails with 400 and leaves the collection as it was. */
  lemma ToggleNeverSubscribes(t: seq<Doc<Subscription>>, name: string, userId: Id)
    requires !Subscribed(t, userId, name)
    ensures Toggle(t, name, userId).response.Err?
    ensures Toggle(t, name, userId).table == t
    ensures !Subscribed(Toggle(t, name, userId).table, userId, name)
  {
  }

  /** The input that shows it: a first subscription to "news" by "u1". */
  lemma FirstSubscriptionFails()
    ensures Toggle([], "news", "u1") == Step(Err(400), [])
  {
    assert !Subscribed([], "u1", "news");
  }

  /** The toggle the handler's create branch evidently intends: delete an
      existing record (200), otherwise create `{subscription: userId, channel: name}`
      (201). */
  function IntendedToggle(t: seq<Doc<Subscription>>, name: string, userId: Id, now: int): (s: Step<Subscription, ()>)
    ensures MissingParam(name) ==> s == Step(Err(400), t)
    ensures !MissingParam(name) && MissingParam(userId) ==> s == Step(Err(401), t)
    ensures !MissingParam(name) && !MissingParam(userId) ==>
              s.response == Ok(if Subscribed(t, userId, name) then 200 else 201, ())
    ensures !MissingParam(name) && !MissingParam(userId) && !Subscribed(t, userId, name) ==>
              s.table == t + [Doc(FreshId(t), now, Subscription(None, Some(userId), name))]
    ensures !MissingParam(name) && !MissingParam(userId) && Subscribed(t, userId, name) ==>
              |s.table| == |t| - 1
    ensures Subscribed(t, userId, name) ==> forall d :: d in s.table ==> d in t
    ensures forall d :: !IsToggleRecord(d, userId, name) ==> (d in s.table <==> d in t)
    ensures UniqueIds(t) ==> UniqueIds(s.table)
  {
    if MissingParam(name) then Step(Err(400), t)
    else if MissingParam(userId) then Step(Err(401), t)
    else match FindFirst(t, (d: Doc<Subscription>) => IsToggleRecord(d, userId, name))
      case Some(i) =>
        assert t[i] in t;
        var rest := RemoveAt(t, i);
        RemoveAtKeeps(t, i);
        Step(Ok(200, ()), rest)
      case None =>
        assert !Subscribed(t, userId, name) by {
          forall d | d in t ensures !IsToggleRecord(d, userId, name) {
            var j :| 0 <= j < |t| && t[j] == d;
          }
        }
        Step(Ok(201, ()), t + [Doc(FreshId(t), now, Subscription(None, Some(userId), name))])
  }

  /** The intended toggle subscribes a caller who was not subscribed, and a
      second toggle gives the collection back. */
  lemma {:induction false} IntendedToggleTwice(t: seq<Doc<Subscription>>, name: string, userId: Id, now1: int, now2: int)
    requires !MissingParam(name) && !MissingParam(userId) && !Subscribed(t, userId, name)
    ensures var s1 := IntendedToggle(t, name, userId, now1);
            && s1.response == Ok(201, ())
            && Subscribed(s1.table, userId, name)
            && IntendedToggle(s1.table, name, userId, now2) == Step(Ok(200, ()), t)
  {
    var s1 := IntendedToggle(t, name, userId, now1);
    var nd := Doc(FreshId(t), now1, Subscription(None, Some(userId), name));
    var p := (d: Doc<Subscription>) => IsToggleRecord(d, userId, name);
    assert s1.table == t + [nd];
    assert nd in s1.table;
    assert forall j :: 0 <= j < |t| ==> !p(s1.table[j]) by {
      forall j | 0 <= j < |t| ensures !p(s1.table[j]) { assert s1.table[j] in t; }
    }
    assert FindFirst(s1.table, p) == Some(|t|);
    assert RemoveAt(s1.table, |t|) == t;
  }

  /** getUserChannelSubscribers: 400 without a channel name, otherwise exactly
      the records whose `channel` is that name, in collection order. */
  function ChannelSubscribers(t: seq<Doc<Subscription>>, name: string): (r: Response<seq<Doc<Subscription>>>)
    ensures MissingParam(name) <==> r == Err(400)
    ensures r.Ok? ==> r.status == 200
    ensures r.Ok? ==> forall d :: d in r.value <==> d in t && d.body.channel == name
    ensures r.Ok? ==> forall d :: multiset(r.value)[d] == if d.body.channel == name then multiset(t)[d] else 0
  {
    if MissingParam(name) then Err(400)
    else
      FilterCounts(t, (d: Doc<Subscription>) => d.body.channel == name);
      Ok(200, Filter(t, (d: Doc<Subscription>) => d.body.channel == name))
  }

  /** getSubscribedChannels: 400 without an id, otherwise exactly the records
      whose `subscriber` field is that id. */
  function SubscribedChannels(t: seq<Doc<Subscription>>, id: Id): (r: Response<seq<Doc<Subscription>>>)
    ensures MissingParam(id) <==> r == Err(400)
    ensures r.Ok? ==> r.status == 200
    ensures r.Ok? ==> forall d :: d in r.value <==> d in t && d.body.subscriber == Some(id)
    ensures r.Ok? ==> forall d :: multiset(r.value)[d] == if d.body.subscriber == Some(id) then multiset(t)[d] else 0
  {
    if MissingParam(id) then Err(400)
    else
      FilterCounts(t, (d: Doc<Subscription>) => d.body.subscriber == Some(id));
      Ok(200, Filter(t, (d: Doc<Subscription>) => d.body.subscriber == Some(id)))
  }

  /** The listing reads `subscriber`, the field the toggle never writes: a
      record the (intended) toggle creates is never among a user's channels. */
  lemma ToggleRecordNotListed(t: seq<Doc<Subscription>>, name: string, userId: Id, now: int, id: Id)
    requires !MissingParam(name) && !MissingParam(userId) && !MissingParam(id) && !Subscribed(t, userId, name)
    ensures var s := IntendedToggle(t, name, userId, now);
            var created := s.table[|s.table| - 1];
            && IsToggleRecord(created, userId, name)
            && created !in SubscribedChannels(s.table, id).value
  {
  }

  /** The Subscription collection. */
  class SubscriptionStore {
    var subscriptions: seq<Doc<Subscription>>

    ghost predicate Valid()
      reads this
    {
      UniqueIds(subscriptions)
    }

    constructor ()
      ensures Valid() && subscriptions == []
    {
      subscriptions := [];
    }

    /** toggleSubscription as written. */
    method ToggleSubscriptionAsWritten(name: string, userId: Id) returns (r: Response<()>)
      requires Valid()
      modifies this
      ensures Valid()
      ensures Step(r, subscriptions) == Toggle(old(subscriptions), name, userId)
      ensures |subscriptions| <= |old(subscriptions)|
    {
      if MissingParam(name) {
        return Err(400);
      }
      if MissingParam(userId) {
        return Err(401);
      }
      var existing := FindFirst(subscriptions, (d: Doc<Subscription>) => IsToggleRecord(d, userId, name));
      if existing.Some? {
        RemoveAtDoc(subscriptions, existing.value);
        subscriptions := RemoveAt(subscriptions, existing.value);
        return Ok(200, ());
      }
      return Err(400);
    }

    /** toggleSubscription as its create branch intends. */
    method ToggleSubscription(name: string, userId: Id, now: int) returns (r: Response<()>)
      requires Valid()
      modifies this
      ensures Valid()
      ensures Step(r, subscriptions) == IntendedToggle(old(subscriptions), name, userId, now)
    {
      if MissingParam(name) {
        return Err(400);
      }
      if MissingParam(userId) {
        return Err(401);
      }
      var existing := FindFirst(subscriptions, (d: Doc<Subscription>) => IsToggleRecord(d, userId, name));
      if existing.Some? {
        RemoveAtDoc(subscriptions, existing.value);
        subscriptions := RemoveAt(subscriptions, existing.value);
        return Ok(200, ());
      }
      var d := Doc(FreshId(subscriptions), now, Subscription(None, Some(userId), name));
      AppendDoc(subscriptions, d);
      subscriptions := subscriptions + [d];
      r := Ok(201, ());
    }
  }
}
