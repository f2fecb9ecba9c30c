/** The news repository and the publish job as one process runs them: item and claim
    rows changed in place, each attempt proved to be a run of the protocol's steps. */
module NewsStore {
  import opened Wrappers
  import opened Publishing
  import opened PublishingSafety

  /** What came of one send: a message id, nothing, or nothing although the channel
      received the message. */
  datatype SendResult = Accepted(msg: MsgId) | Refused | Unreported(msg: MsgId)

  function SendStep(p: Publisher, send: SendResult): Step {
    match send
    case Accepted(msg) => Deliver(p, msg)
    case Refused => Refuse(p)
    case Unreported(msg) => Vanish(p, msg)
  }

  /** The steps of one uninterrupted attempt; those its branch does not reach do nothing. */
  function Attempt(p: Publisher, key: Key, send: SendResult): seq<Step> {
    [Select(p, key), Insert(p), SendStep(p, send), Finish(p)]
  }

  function Attempts(p: Publisher, keys: seq<Key>, sends: seq<SendResult>): seq<Step>
    requires |keys| == |sends|
  {
    if |keys| == 0 then []
    else Attempts(p, keys[..|keys| - 1], sends[..|sends| - 1]) + Attempt(p, keys[|keys| - 1], sends[|sends| - 1])
  }

  lemma {:induction false} RunFromAppend(w: World, a: seq<Step>, b: seq<Step>)
    ensures RunFrom(w, a + b) == RunFrom(RunFrom(w, a), b)
    decreases |b|
  {
    if |b| == 0 {
      assert a + b == a;
    } else {
      assert (a + b)[..|a + b| - 1] == a + b[..|b| - 1];
      RunFromAppend(w, a, b[..|b| - 1]);
    }
  }

  lemma RunSnoc(w: World, run: seq<Step>, s: Step)
    ensures RunFrom(w, run + [s]) == Next(RunFrom(w, run), s)
  {
    assert (run + [s])[..|run|] == run;
  }

  lemma AttemptInSteps(w: World, p: Publisher, key: Key, send: SendResult)
    ensures RunFrom(w, Attempt(p, key, send))
         == Next(Next(Next(Next(w, Select(p, key)), Insert(p)), SendStep(p, send)), Finish(p))
  {
    var one := [Select(p, key)];
    var two := one + [Insert(p)];
    var three := two + [SendStep(p, send)];
    assert Attempt(p, key, send) == three + [Finish(p)];
    assert [] + [Select(p, key)] == one;
    RunSnoc(w, [], Select(p, key));
    RunSnoc(w, one, Insert(p));
    RunSnoc(w, two, SendStep(p, send));
    RunSnoc(w, three, Finish(p));
  }

  /** What an attempt comes to when nothing interleaves with it: a failed send leaves the
      world as it found it, an accepted one leaves a sent item and its row. */
  function AttemptOutcome(w: World, key: Key, send: SendResult): World {
    if key.item !in w.items || w.items[key.item].status != Ready then w
    else if key in w.claims then SetItem(w, key.item, Reconciled(w.items[key.item], w.claims[key]))
    else
      var item := w.items[key.item];
      match send
      case Refused => w
      case Unreported(msg) =>
        w.(posts := w.posts + [Post(key, msg, item.outcomes)], vanished := w.vanished + multiset{key})
      case Accepted(msg) =>
        w.(posts := w.posts + [Post(key, msg, item.outcomes)],
           items := w.items[key.item := item.(status := Sent, channelMsg := Some(msg))],
           claims := w.claims[key := Some(msg)])
  }

  /** The world just after `p` claimed a free slot. */
  function JustClaimed(w: World, p: Publisher, key: Key): World
    requires key.item in w.items
  {
    SetDesk(w.(claims := w.claims[key := None]), p, Claimed(key, w.items[key.item].outcomes))
  }

  lemma AcceptedAndFinished(w: World, p: Publisher, key: Key, msg: MsgId)
    requires w.desks == map[] && key.item in w.items && key !in w.claims && w.items[key.item].status == Ready
    ensures Next(Next(JustClaimed(w, p, key), Deliver(p, msg)), Finish(p)) == AttemptOutcome(w, key, Accepted(msg))
  {
    var sent := Next(JustClaimed(w, p, key), Deliver(p, msg));
    assert sent.desks == map[p := Posted(key, msg)] && sent.desks - {p} == map[];
    assert w.claims[key := None][key := Some(msg)] == w.claims[key := Some(msg)];
  }

  lemma FailedAndFinished(w: World, p: Publisher, key: Key, send: SendResult)
    requires w.desks == map[] && key.item in w.items && key !in w.claims && w.items[key.item].status == Ready
    requires !send.Accepted?
    ensures Next(Next(JustClaimed(w, p, key), SendStep(p, send)), Finish(p)) == AttemptOutcome(w, key, send)
  {
    var sent := Next(JustClaimed(w, p, key), SendStep(p, send));
    assert sent.desks == map[p := Failed(key)] && sent.desks - {p} == map[];
    assert w.claims[key := None] - {key} == w.claims;
  }

  lemma SendAndFinish(w: World, p: Publisher, key: Key, send: SendResult)
    requires w.desks == map[] && key.item in w.items && key !in w.claims && w.items[key.item].status == Ready
    ensures Next(Next(JustClaimed(w, p, key), SendStep(p, send)), Finish(p)) == AttemptOutcome(w, key, send)
  {
    if send.Accepted? {
      AcceptedAndFinished(w, p, key, send.msg);
    } else {
      FailedAndFinished(w, p, key, send);
    }
  }

  lemma AttemptOnTakenSlot(w: World, p: Publisher, key: Key, send: SendResult)
    requires w.desks == map[] && key.item in w.items && w.items[key.item].status == Ready && key in w.claims
    ensures RunFrom(w, Attempt(p, key, send)) == AttemptOutcome(w, key, send)
  {
    AttemptInSteps(w, p, key, send);
    var selected := Next(w, Select(p, key));
    assert selected.desks == map[p := Reconciling(key, w.claims[key])] && selected.desks - {p} == map[];
    assert Next(selected, Insert(p)) == selected;
    assert Next(selected, SendStep(p, send)) == selected;
  }

  lemma AttemptOnFreeSlot(w: World, p: Publisher, key: Key, send: SendResult)
    requires w.desks == map[] && key.item in w.items && w.items[key.item].status == Ready && key !in w.claims
    ensures RunFrom(w, Attempt(p, key, send)) == AttemptOutcome(w, key, send)
  {
    AttemptInSteps(w, p, key, send);
    SelectThenInsert(w, p, key);
    SendAndFinish(w, p, key, send);
  }

  lemma IdleDoesNothing(w: World, p: Publisher, send: SendResult)
    requires w.desks == map[]
    ensures Next(w, Insert(p)) == w && Next(w, SendStep(p, send)) == w && Next(w, Finish(p)) == w
  {
    assert DeskOf(w, p) == Idle;
  }

  lemma AttemptOnOtherItem(w: World, p: Publisher, key: Key, send: SendResult)
    requires w.desks == map[] && (key.item !in w.items || w.items[key.item].status != Ready)
    ensures RunFrom(w, Attempt(p, key, send)) == w
  {
    AttemptInSteps(w, p, key, send);
    IdleDoesNothing(w, p, send);
    assert Next(w, Select(p, key)) == w;
  }

  lemma AttemptShape(w: World, p: Publisher, key: Key, send: SendResult)
    requires w.desks == map[]
    ensures RunFrom(w, Attempt(p, key, send)) == AttemptOutcome(w, key, send)
  {
    if key.item !in w.items || w.items[key.item].status != Ready {
      AttemptOnOtherItem(w, p, key, send);
    } else if key in w.claims {
      AttemptOnTakenSlot(w, p, key, send);
    } else {
      AttemptOnFreeSlot(w, p, key, send);
    }
  }

  /** Nothing is sent for an item that is not ready or a slot that is claimed, and a refused send
      leaves no trace. */
  lemma AttemptSendsOnlyFreeSlots(w: World, p: Publisher, key: Key, send: SendResult)
    requires w.desks == map[]
    ensures var after := RunFrom(w, Attempt(p, key, send));
            && (after.posts != w.posts ==>
                  key.item in w.items && w.items[key.item].status == Ready && key !in w.claims && !send.Refused?)
            && (send.Refused? && key !in w.claims ==> after == w)
  {
    AttemptShape(w, p, key, send);
  }

  /** A claim that is made and then settled leaves the slot as it was, or delivered. */
  lemma ClaimSettled(before: map<Key, Option<MsgId>>, key: Key, after: map<Key, Option<MsgId>>, msg: Option<MsgId>)
    requires key !in before
    requires after == if msg.None? then before[key := None] - {key} else before[key := None][key := msg]
    ensures after == if msg.None? then before else before[key := msg]
  {
  }

  // ── what the job does to the tables ──────────────────────────────────────

  predicate DistinctIds(ids: seq<ItemId>) { forall a, b | 0 <= a < b < |ids| :: ids[a] != ids[b] }

  function KeysOf(ids: seq<ItemId>, chat: int, lang: string): seq<Key> {
    seq(|ids|, i requires 0 <= i < |ids| => Key(ids[i], chat, lang))
  }

  /** What one send makes of a slot, on the tables before and after. */
  predicate SlotIsPublished(items: map<ItemId, Item>, claims: map<Key, Option<MsgId>>, posts: seq<Post>,
                            items': map<ItemId, Item>, claims': map<Key, Option<MsgId>>, posts': seq<Post>,
                            key: Key, send: SendResult)
  {
    if key.item !in items || items[key.item].status != Ready then
      SameItem(items, items', key.item) && SameSlot(claims, posts, claims', posts', key)
    else
      var item := items[key.item];
      key.item in items' &&
      if key in claims then
        // a claimed slot is only reconciled
        items'[key.item] == item.(status := Sent, channelMsg := if item.channelMsg.Some? then item.channelMsg else claims[key])
        && SameSlot(claims, posts, claims', posts', key)
      else
        match send
        case Refused => items'[key.item] == item && SameSlot(claims, posts, claims', posts', key)
        case Unreported(msg) =>
          items'[key.item] == item && key !in claims'
          && PostsOf(posts', key) == PostsOf(posts, key) + 1 && Post(key, msg, item.outcomes) in posts'
        case Accepted(msg) =>
          items'[key.item] == item.(status := Sent, channelMsg := Some(msg))
          && key in claims' && claims'[key] == Some(msg)
          && PostsOf(posts', key) == PostsOf(posts, key) + 1 && Post(key, msg, item.outcomes) in posts'
  }

  predicate SameItem(items: map<ItemId, Item>, items': map<ItemId, Item>, i: ItemId) {
    (i in items' <==> i in items) && (i in items ==> items'[i] == items[i])
  }

  predicate SameSlot(claims: map<Key, Option<MsgId>>, posts: seq<Post>,
                     claims': map<Key, Option<MsgId>>, posts': seq<Post>, key: Key)
  {
    (key in claims' <==> key in claims) && (key in claims ==> claims'[key] == claims[key])
    && PostsOf(posts', key) == PostsOf(posts, key)
  }

  /** An attempt publishes its own slot. */
  lemma AttemptPublishes(w: World, p: Publisher, key: Key, send: SendResult)
    requires w.desks == map[]
    ensures var after := RunFrom(w, Attempt(p, key, send));
            after.desks == map[] && w.posts <= after.posts &&
            SlotIsPublished(w.items, w.claims, w.posts, after.items, after.claims, after.posts, key, send)
  {
    AttemptShape(w, p, key, send);
    if send.Unreported? || send.Accepted? {
      if key.item in w.items {
        var post := Post(key, send.msg, w.items[key.item].outcomes);
        OneMorePost(w.posts, post, key);
        assert post in w.posts + [post];
      }
    }
  }

  /** And it leaves the items and slots of all others alone. */
  lemma AttemptLeavesOthers(w: World, p: Publisher, key: Key, send: SendResult, other: Key)
    requires w.desks == map[] && other.item != key.item
    ensures var after := RunFrom(w, Attempt(p, key, send));
            SameItem(w.items, after.items, other.item) && SameSlot(w.claims, w.posts, after.claims, after.posts, other)
  {
    AttemptShape(w, p, key, send);
    if (send.Unreported? || send.Accepted?) && key.item in w.items {
      OneMorePost(w.posts, Post(key, send.msg, w.items[key.item].outcomes), other);
    }
  }

  lemma {:induction false} AttemptsLeaveOthers(w: World, p: Publisher, keys: seq<Key>, sends: seq<SendResult>, other: Key)
    requires |keys| == |sends| && w.desks == map[]
    requires forall n | 0 <= n < |keys| :: keys[n].item != other.item
    ensures var after := RunFrom(w, Attempts(p, keys, sends));
            && after.desks == map[] && w.posts <= after.posts
            && SameItem(w.items, after.items, other.item)
            && SameSlot(w.claims, w.posts, after.claims, after.posts, other)
    decreases |keys|
  {
    if |keys| > 0 {
      var n := |keys| - 1;
      var before := Attempts(p, keys[..n], sends[..n]);
      AttemptsLeaveOthers(w, p, keys[..n], sends[..n], other);
      RunFromAppend(w, before, Attempt(p, keys[n], sends[n]));
      AttemptPublishes(RunFrom(w, before), p, keys[n], sends[n]);
      AttemptLeavesOthers(RunFrom(w, before), p, keys[n], sends[n], other);
    }
  }

  lemma PublishedThenLeftAlone(w: World, mid: World, after: World, key: Key, send: SendResult)
    requires SlotIsPublished(w.items, w.claims, w.posts, mid.items, mid.claims, mid.posts, key, send)
    requires SameItem(mid.items, after.items, key.item) && SameSlot(mid.claims, mid.posts, after.claims, after.posts, key)
    requires mid.posts <= after.posts
    ensures SlotIsPublished(w.items, w.claims, w.posts, after.items, after.claims, after.posts, key, send)
  {
    assert forall post <- mid.posts :: post in after.posts;
  }

  lemma LeftAloneThenPublished(w: World, mid: World, after: World, key: Key, send: SendResult)
    requires SameItem(w.items, mid.items, key.item) && SameSlot(w.claims, w.posts, mid.claims, mid.posts, key)
    requires SlotIsPublished(mid.items, mid.claims, mid.posts, after.items, after.claims, after.posts, key, send)
    ensures SlotIsPublished(w.items, w.claims, w.posts, after.items, after.claims, after.posts, key, send)
  {
  }

  /** Each of the attempts of a job publishes its slot, whatever the others come to. */
  lemma {:induction false} EachIsPublished(w: World, p: Publisher, keys: seq<Key>, sends: seq<SendResult>, n: nat)
    requires |keys| == |sends| && w.desks == map[] && n < |keys|
    requires forall a, b | 0 <= a < b < |keys| :: keys[a].item != keys[b].item
    ensures var after := RunFrom(w, Attempts(p, keys, sends));
            && after.desks == map[]
            && SlotIsPublished(w.items, w.claims, w.posts, after.items, after.claims, after.posts, keys[n], sends[n])
    decreases |keys|
  {
    var m := |keys| - 1;
    var before := Attempts(p, keys[..m], sends[..m]);
    var mid, after := RunFrom(w, before), RunFrom(w, Attempts(p, keys, sends));
    RunFromAppend(w, before, Attempt(p, keys[m], sends[m]));
    if n < m {
      EachIsPublished(w, p, keys[..m], sends[..m], n);
      AttemptPublishes(mid, p, keys[m], sends[m]);
      AttemptLeavesOthers(mid, p, keys[m], sends[m], keys[n]);
      PublishedThenLeftAlone(w, mid, after, keys[n], sends[n]);
    } else {
      AttemptsLeaveOthers(w, p, keys[..m], sends[..m], keys[m]);
      AttemptPublishes(mid, p, keys[m], sends[m]);
      LeftAloneThenPublished(w, mid, after, keys[m], sends[m]);
    }
  }

  lemma AttemptsPublish(w: World, p: Publisher, chat: int, lang: string, ready: seq<ItemId>, sends: seq<SendResult>)
    requires |ready| == |sends| && w.desks == map[]
    ensures var after := RunFrom(w, Attempts(p, KeysOf(ready, chat, lang), sends));
            && (DistinctIds(ready) ==> forall n | 0 <= n < |ready| ::
                  SlotIsPublished(w.items, w.claims, w.posts, after.items, after.claims, after.posts,
                                  Key(ready[n], chat, lang), sends[n]))
            && (forall i | i !in ready ::
                  SameItem(w.items, after.items, i) &&
                  forall c, l :: SameSlot(w.claims, w.posts, after.claims, after.posts, Key(i, c, l)))
  {
    var keys := KeysOf(ready, chat, lang);
    var after := RunFrom(w, Attempts(p, keys, sends));
    if DistinctIds(ready) {
      forall n | 0 <= n < |ready|
        ensures SlotIsPublished(w.items, w.claims, w.posts, after.items, after.claims, after.posts,
                                Key(ready[n], chat, lang), sends[n])
      {
        EachIsPublished(w, p, keys, sends, n);
      }
    }
    forall i, c, l | i !in ready
      ensures SameItem(w.items, after.items, i) && SameSlot(w.claims, w.posts, after.claims, after.posts, Key(i, c, l))
    {
      AttemptsLeaveOthers(w, p, keys, sends, Key(i, c, l));
    }
    forall i | i !in ready
      ensures SameItem(w.items, after.items, i)
    {
      AttemptsLeaveOthers(w, p, keys, sends, Key(i, chat, lang));
    }
  }

  /** The steps of approving ids one by one. */
  function Approvals(ids: seq<ItemId>): seq<Step> {
    if |ids| == 0 then [] else Approvals(ids[..|ids| - 1]) + [AutoApprove(ids[|ids| - 1])]
  }

  function InBacklog(items: map<ItemId, Item>, ids: seq<ItemId>): set<ItemId> {
    set i | i in items && i in ids && items[i].status == Backlog
  }

  /** The items with exactly `chosen` approved. */
  function Promoted(items: map<ItemId, Item>, chosen: set<ItemId>): map<ItemId, Item> {
    map i | i in items :: if i in chosen then items[i].(status := Approved) else items[i]
  }

  lemma BacklogGrows(items: map<ItemId, Item>, ids: seq<ItemId>, i: ItemId)
    ensures var before, after := InBacklog(items, ids), InBacklog(items, ids + [i]);
            var now := Promoted(items, before);
            if i in now && now[i].status == Backlog
            then i !in before && after == before + {i} &&
                 Promoted(items, after) == now[i := now[i].(status := Approved)]
            else after == before
  {
    var before, after := InBacklog(items, ids), InBacklog(items, ids + [i]);
    if i in items && items[i].status == Backlog {
      assert after == before + {i};
    } else {
      assert after == before;
    }
  }

  lemma PromotedMeans(items: map<ItemId, Item>, ids: seq<ItemId>)
    ensures var promoted := Promoted(items, InBacklog(items, ids));
            && promoted.Keys == items.Keys
            && forall i <- items ::
                 promoted[i] == if i in ids && items[i].status == Backlog then items[i].(status := Approved) else items[i]
    ensures InBacklog(items, ids) == set i | i in items && i in ids && items[i].status == Backlog
  {
  }

  lemma {:induction false} ApprovalsPromote(w: World, ids: seq<ItemId>)
    ensures RunFrom(w, Approvals(ids)) == w.(items := Promoted(w.items, InBacklog(w.items, ids)))
    decreases |ids|
  {
    if |ids| == 0 {
      assert Promoted(w.items, {}) == w.items;
    } else {
      var before, last := ids[..|ids| - 1], ids[|ids| - 1];
      ApprovalsPromote(w, before);
      BacklogGrows(w.items, before, last);
      RunSnoc(w, Approvals(before), AutoApprove(last));
      assert ids == before + [last];
    }
  }

  class Store {
    var items: map<ItemId, Item>
    var claims: map<Key, Option<MsgId>>
    ghost var posts: seq<Post>
    ghost var vanished: multiset<Key>
    ghost var abandoned: set<Key>

    /** The world between attempts, when nobody is at work on a slot. */
    ghost function World(): World
      reads this
    {
      Publishing.World(items, claims, map[], posts, vanished, abandoned)
    }

    constructor ()
      ensures World() == START
    {
      items, claims, posts, vanished, abandoned := map[], map[], [], multiset{}, {};
    }

    /** The first transaction: reconcile a claimed slot, or claim a free one and return what the
        post will show. */
    method Claim(key: Key) returns (snapshot: Option<seq<Outcome>>)
      modifies `items, `claims
      ensures snapshot.Some? <==>
                key.item in old(items) && old(items)[key.item].status == Ready && key !in old(claims)
      ensures snapshot.Some? ==>
                items == old(items) && claims == old(claims)[key := None] && snapshot.value == items[key.item].outcomes
      ensures snapshot.None? ==> claims == old(claims)
      ensures snapshot.None? ==>
                items == if key.item in old(items) && old(items)[key.item].status == Ready
                         then old(items)[key.item := Reconciled(old(items)[key.item], claims[key])] else old(items)
    {
      if key.item !in items || items[key.item].status != Ready {
        return None;
      }
      if key in claims {
        var existing := claims[key];
        var item := items[key.item].(status := Sent);
        if existing.Some? && item.channelMsg.None? {
          item := item.(channelMsg := existing);
        }
        items := items[key.item := item];
        return None;
      }
      claims := claims[key := None];
      return Some(items[key.item].outcomes);
    }

    /** The second transaction: release the claim, or mark the item sent and the row delivered. */
    method Finalize(key: Key, msg: Option<MsgId>)
      modifies `items, `claims
      ensures msg.None? ==> items == old(items) && claims == old(claims) - {key}
      ensures msg.Some? ==>
                (items == if key.item in old(items)
                          then old(items)[key.item := old(items)[key.item].(status := Sent, channelMsg := msg)]
                          else old(items))
                && claims == if key in old(claims) then old(claims)[key := msg] else old(claims)
    {
      if msg.None? {
        claims := claims - {key};
        return;
      }
      if key.item in items {
        items := items[key.item := items[key.item].(status := Sent, channelMsg := msg)];
      }
      if key in claims {
        claims := claims[key := msg];
      }
    }

    /** Claim, send, finalize. */
    method PublishOne(p: Publisher, key: Key, send: SendResult)
      modifies this
      ensures World() == AttemptOutcome(old(World()), key, send)
      ensures World() == RunFrom(old(World()), Attempt(p, key, send))
      ensures SlotIsPublished(old(items), old(claims), old(posts), items, claims, posts, key, send)
    {
      AttemptShape(World(), p, key, send);
      AttemptPublishes(World(), p, key, send);
      var snapshot := Claim(key);
      if snapshot.None? {
        return;
      }
      if !send.Refused? {
        posts := posts + [Post(key, send.msg, snapshot.value)];
      }
      if send.Unreported? {
        vanished := vanished + multiset{key};
      }
      Finalize(key, if send.Accepted? then Some(send.msg) else None);
      ClaimSettled(old(claims), key, claims, if send.Accepted? then Some(send.msg) else None);
    }

    /** One run of the publish job over the ids it found ready. */
    method PublishJob(p: Publisher, chat: int, lang: string, ready: seq<ItemId>, sends: seq<SendResult>)
      requires |ready| == |sends|
      modifies this
      ensures DistinctIds(ready) ==> forall n | 0 <= n < |ready| ::
                SlotIsPublished(old(items), old(claims), old(posts), items, claims, posts,
                                Key(ready[n], chat, lang), sends[n])
      ensures forall i | i !in ready ::
                SameItem(old(items), items, i) &&
                forall c, l :: SameSlot(old(claims), old(posts), claims, posts, Key(i, c, l))
      ensures World() == RunFrom(old(World()), Attempts(p, KeysOf(ready, chat, lang), sends))
    {
      ghost var keys := KeysOf(ready, chat, lang);
      for n := 0 to |ready|
        invariant World() == RunFrom(old(World()), Attempts(p, keys[..n], sends[..n]))
      {
        assert keys[..n + 1][..n] == keys[..n] && sends[..n + 1][..n] == sends[..n];
        RunFromAppend(old(World()), Attempts(p, keys[..n], sends[..n]), Attempt(p, keys[n], sends[n]));
        PublishOne(p, Key(ready[n], chat, lang), sends[n]);
      }
      assert keys[..|ready|] == keys && sends[..|ready|] == sends;
      AttemptsPublish(old(World()), p, chat, lang, ready, sends);
    }

    /** `cta` is what the resolver answers when it is asked. */
    method RenderItem(i: ItemId, cta: Option<Cta>)
      modifies `items
      ensures World() == Next(old(World()), Render(i, cta))
      ensures i !in old(items) ==> items == old(items)
      ensures i in old(items) ==>
                i in items && items == old(items)[i := items[i]] &&
                items[i].status == Ready && items[i].channelMsg == old(items)[i].channelMsg &&
                if old(items)[i].resolved || cta.None?
                then items[i] == old(items)[i].(status := Ready)
                else items[i].resolved && items[i].market == cta.value.market && items[i].outcomes == cta.value.outcomes
    {
      if i !in items {
        return;
      }
      var item := items[i].(status := Translating);
      item := item.(status := Rendering);
      if !item.resolved {
        if cta.Some? {
          item := item.(market := cta.value.market, outcomes := cta.value.outcomes, resolved := true);
        }
      }
      items := items[i := item.(status := Ready)];
    }

    method CurateNewsItem(i: ItemId, action: Curation) returns (found: bool)
      modifies `items
      ensures World() == Next(old(World()), Curate(i, action))
      ensures found <==> i in old(items) && action != Unknown
      ensures !found ==> items == old(items)
      ensures found ==>
                items == old(items)[i := old(items)[i].(status :=
                           if action == Reject then Rejected else if action == Unapprove then Backlog else Approved)]
    {
      if i !in items {
        return false;
      }
      match action {
        case Approve => items := items[i := items[i].(status := Approved)];
        case Reject => items := items[i := items[i].(status := Rejected)];
        case Unapprove => items := items[i := items[i].(status := Backlog)];
        case Rerender => items := items[i := items[i].(status := Approved)];
        case RegenImage => items := items[i := items[i].(status := Approved)];
        case Unknown => return false;
      }
      return true;
    }

    /** Promotes every item of `ids` that is still in the backlog, and no other. */
    method ApproveIds(ids: seq<ItemId>) returns (promoted: nat)
      modifies `items
      ensures World() == RunFrom(old(World()), Approvals(ids))
      ensures items.Keys == old(items).Keys
      ensures forall i <- items ::
                items[i] == if i in ids && old(items)[i].status == Backlog
                            then old(items)[i].(status := Approved) else old(items)[i]
      ensures promoted == |set i | i in old(items) && i in ids && old(items)[i].status == Backlog|
    {
      promoted := 0;
      for n := 0 to |ids|
        invariant items == Promoted(old(items), InBacklog(old(items), ids[..n]))
        invariant promoted == |InBacklog(old(items), ids[..n])|
      {
        BacklogGrows(old(items), ids[..n], ids[n]);
        assert ids[..n + 1] == ids[..n] + [ids[n]];
        if ids[n] in items && items[ids[n]].status == Backlog {
          items := items[ids[n] := items[ids[n]].(status := Approved)];
          promoted := promoted + 1;
        }
      }
      assert ids[..|ids|] == ids;
      ApprovalsPromote(old(World()), ids);
      PromotedMeans(old(items), ids);
    }
  }

  // ── what the protocol does not promise ───────────────────────────────────

  /** A run that leaves one item ready, with no outcomes, and nothing else. */
  lemma OneReadyItem(k: Key) returns (run: seq<Step>)
    ensures var w := Run(run);
            && w.items == map[k.item := Item(k.item, Ready, false, "", [], None)]
            && w.claims == map[] && w.posts == [] && w.desks == map[] && w.vanished == multiset{}
    ensures forall s <- run :: s.Crawl? || s.Render?
  {
    run := [] + [Crawl(k.item)];
    RunSnoc(START, [], Crawl(k.item));
    RunSnoc(START, run, Render(k.item, None));
    run := run + [Render(k.item, None)];
  }

  lemma SelectThenInsert(w: World, p: Publisher, k: Key)
    requires w.desks == map[] && k.item in w.items && w.items[k.item].status == Ready && k !in w.claims
    ensures Next(Next(w, Select(p, k)), Insert(p)) == JustClaimed(w, p, k)
  {
    var selected := Next(w, Select(p, k));
    assert selected.desks == map[p := Selected(k, w.items[k.item].outcomes)];
    assert Next(selected, Insert(p)).desks == map[p := Claimed(k, w.items[k.item].outcomes)];
  }

  /** A run that leaves an item ready and its slot claimed by publisher 0. */
  lemma ClaimedByFirst(k: Key) returns (run: seq<Step>)
    ensures var w := Run(run);
            && k.item in w.items && w.items[k.item].status == Ready
            && w.claims == map[k := None] && w.posts == []
            && w.desks == map[0 := Claimed(k, [])]
    ensures forall s <- run :: !s.Crash? && !s.Vanish?
  {
    run := OneReadyItem(k);
    var ready := Run(run);
    SelectThenInsert(ready, 0, k);
    RunSnoc(START, run, Select(0, k));
    run := run + [Select(0, k)];
    RunSnoc(START, run, Insert(0));
    run := run + [Insert(0)];
  }

  /** The second publisher reconciles with the first one's claim. */
  lemma SecondReconciles(w: World, k: Key)
    requires k.item in w.items && w.items[k.item].status == Ready
    requires w.claims == map[k := None] && w.desks == map[0 := Claimed(k, [])]
    ensures var after := Next(Next(w, Select(1, k)), Finish(1));
            && k.item in after.items && after.items[k.item].status == Sent
            && after.claims == w.claims && after.posts == w.posts && after.desks == w.desks
  {
    var selected := Next(w, Select(1, k));
    assert selected.desks == map[0 := Claimed(k, []), 1 := Reconciling(k, None)];
    assert selected.desks - {1} == w.desks;
  }

  /** The first publisher's send fails and its claim is released. */
  lemma FirstReleases(w: World, k: Key)
    requires w.claims == map[k := None] && w.desks == map[0 := Claimed(k, [])]
    ensures var after := Next(Next(w, Refuse(0)), Finish(0));
            after.items == w.items && after.claims == map[] && after.posts == w.posts
  {
    assert w.claims - {k} == map[];
  }

  /** With two publishers an item can be marked sent without a row and without a
      message: one reconciles with a claim whose owner's send then fails. */
  lemma TwoPublishersCanLoseAnItem(k: Key) returns (run: seq<Step>)
    ensures var w := Run(run);
            && k.item in w.items && w.items[k.item].status == Sent
            && w.claims == map[] && w.posts == []
    ensures forall s <- run :: !s.Crash? && !s.Vanish?
  {
    run := ClaimedByFirst(k);
    SecondReconciles(Run(run), k);
    RunSnoc(START, run, Select(1, k));
    run := run + [Select(1, k)];
    RunSnoc(START, run, Finish(1));
    run := run + [Finish(1)];
    FirstReleases(Run(run), k);
    RunSnoc(START, run, Refuse(0));
    run := run + [Refuse(0)];
    RunSnoc(START, run, Finish(0));
    run := run + [Finish(0)];
  }

  /** The item is ready and its slot free although `n` of its sends were delivered. */
  predicate Retrying(w: World, k: Key, n: nat) {
    && k.item in w.items && w.items[k.item].status == Ready
    && w.desks == map[] && k !in w.claims
    && PostsOf(w.posts, k) == n && w.vanished[k] == n
  }

  lemma OneUnreportedSend(w: World, k: Key, n: nat)
    requires Retrying(w, k, n)
    ensures Retrying(RunFrom(w, Attempt(0, k, Unreported(n))), k, n + 1)
  {
    AttemptShape(w, 0, k, Unreported(n));
    OneMorePost(w.posts, Post(k, n, w.items[k.item].outcomes), k);
  }

  /** A run of one publisher in which `n` sends are delivered but reported as failed. */
  lemma UnreportedSends(k: Key, n: nat) returns (run: seq<Step>)
    ensures Retrying(Run(run), k, n)
    ensures OnePublisher(run, 0) && forall s <- run :: !s.Crash?
  {
    if n == 0 {
      run := OneReadyItem(k);
    } else {
      var before := UnreportedSends(k, n - 1);
      var again := Attempt(0, k, Unreported(n - 1));
      OneUnreportedSend(Run(before), k, n - 1);
      RunFromAppend(START, before, again);
      run := before + again;
    }
  }

  /** The bound on deliveries is reached for every number of sends that are delivered but
      reported as failed, even with one publisher and no crash. */
  lemma UnreportedSendsDuplicate(k: Key, n: nat) returns (run: seq<Step>)
    ensures PostsOf(Run(run).posts, k) == 1 + n && Run(run).vanished[k] == n
    ensures OnePublisher(run, 0) && forall s <- run :: !s.Crash?
  {
    var before := UnreportedSends(k, n);
    var last := Attempt(0, k, Accepted(n));
    OneAcceptedSend(Run(before), k, n);
    RunFromAppend(START, before, last);
    run := before + last;
  }

  lemma OneAcceptedSend(w: World, k: Key, n: nat)
    requires Retrying(w, k, n)
    ensures var after := RunFrom(w, Attempt(0, k, Accepted(n)));
            PostsOf(after.posts, k) == n + 1 && after.vanished[k] == n
  {
    AttemptShape(w, 0, k, Accepted(n));
    OneMorePost(w.posts, Post(k, n, w.items[k.item].outcomes), k);
  }
}
