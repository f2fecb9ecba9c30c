/** The news publish protocol as a step relation: any number of publishers, the render
    job and the admin interleave their transactions over one set of tables, a send may
    fail, and a publisher may die between any two steps. */
module Publishing {
  import opened Wrappers

  type ItemId = nat
  type MsgId = nat
  type Publisher = nat

  /** The unique key of a channel-post row. */
  datatype Key = Key(item: ItemId, chat: int, lang: string)

  datatype Status = Backlog | Approved | Translating | Rendering | Ready | Sent | Rejected

  /** One bettable outcome stored on an item: a side of a binary market, with its price then. */
  datatype Outcome = Outcome(name: string, market: string, side: string, price: Option<real>)

  /** The call to action resolved for an item; an unset market is the empty string. */
  datatype Cta = Cta(market: string, outcomes: seq<Outcome>)

  datatype Item = Item(
    id: ItemId, status: Status, resolved: bool, market: string, outcomes: seq<Outcome>, channelMsg: Option<MsgId>)

  /** Where a publisher stands in its attempt. */
  datatype Desk =
    | Idle
    | Reconciling(key: Key, existing: Option<MsgId>)  // read a claim row, about to commit the reconciliation
    | Selected(key: Key, outcomes: seq<Outcome>)      // read a ready item without claim row, snapshot taken
    | Claimed(key: Key, outcomes: seq<Outcome>)       // claim row committed, send under way
    | Posted(key: Key, msg: MsgId)                    // send returned a message id
    | Failed(key: Key)                                // send returned nothing

  /** A message the channel really received. */
  datatype Post = Post(key: Key, msg: MsgId, outcomes: seq<Outcome>)

  /** `posts`, `vanished` and `abandoned` are the history: every message delivered, the
      keys of sends that were delivered but reported as failed, and the keys whose
      owner died holding them. */
  datatype World = World(
    items: map<ItemId, Item>, claims: map<Key, Option<MsgId>>, desks: map<Publisher, Desk>,
    posts: seq<Post>, vanished: multiset<Key>, abandoned: set<Key>)

  const START: World := World(map[], map[], map[], [], multiset{}, {})

  /** The admin actions; any other name is refused. */
  datatype Curation = Approve | Reject | Unapprove | Rerender | RegenImage | Unknown

  datatype Step =
    | Crawl(item: ItemId)
    | AutoApprove(item: ItemId)
    | Curate(item: ItemId, action: Curation)
    | Render(item: ItemId, cta: Option<Cta>)
    | Select(pub: Publisher, key: Key)
    | Insert(pub: Publisher)
    | Deliver(pub: Publisher, msg: MsgId)
    | Refuse(pub: Publisher)
    | Vanish(pub: Publisher, msg: MsgId)
    | Finish(pub: Publisher)
    | Crash(pub: Publisher)

  function DeskOf(w: World, p: Publisher): Desk { if p in w.desks then w.desks[p] else Idle }

  function SetDesk(w: World, p: Publisher, d: Desk): World {
    w.(desks := if d.Idle? then w.desks - {p} else w.desks[p := d])
  }

  function SetItem(w: World, i: ItemId, item: Item): World { w.(items := w.items[i := item]) }

  function Curated(item: Item, action: Curation): Item {
    match action
    case Approve => item.(status := Approved)
    case Reject => item.(status := Rejected)
    case Unapprove => item.(status := Backlog)
    case Rerender => item.(status := Approved)
    case RegenImage => item.(status := Approved)
    case Unknown => item
  }

  /** The call to action is resolved once; a later render leaves it alone. */
  function Rendered(item: Item, cta: Option<Cta>): Item {
    if !item.resolved && cta.Some? then
      item.(resolved := true, market := cta.value.market, outcomes := cta.value.outcomes, status := Ready)
    else item.(status := Ready)
  }

  function Reconciled(item: Item, existing: Option<MsgId>): Item {
    item.(status := Sent,
          channelMsg := if existing.Some? && item.channelMsg.None? then existing else item.channelMsg)
  }

  /** One transaction, send outcome or crash; a step whose publisher is elsewhere in
      its attempt, or whose item is missing, does nothing. */
  function Next(w: World, s: Step): World {
    match s
    case Crawl(i) =>
      if i in w.items then w else SetItem(w, i, Item(i, Backlog, false, "", [], None))
    case AutoApprove(i) =>
      if i in w.items && w.items[i].status == Backlog then SetItem(w, i, w.items[i].(status := Approved)) else w
    case Curate(i, action) =>
      if i in w.items then SetItem(w, i, Curated(w.items[i], action)) else w
    case Render(i, cta) =>
      if i in w.items then SetItem(w, i, Rendered(w.items[i], cta)) else w
    case Select(p, k) =>
      if DeskOf(w, p) != Idle || k.item !in w.items || w.items[k.item].status != Ready then w
      else if k in w.claims then SetDesk(w, p, Reconciling(k, w.claims[k]))
      else SetDesk(w, p, Selected(k, w.items[k.item].outcomes))
    case Insert(p) => NextInsert(w, p)
    case Deliver(p, msg) =>
      var d := DeskOf(w, p);
      if !d.Claimed? then w
      else SetDesk(w.(posts := w.posts + [Post(d.key, msg, d.outcomes)]), p, Posted(d.key, msg))
    case Refuse(p) =>
      var d := DeskOf(w, p);
      if !d.Claimed? then w else SetDesk(w, p, Failed(d.key))
    case Vanish(p, msg) =>
      var d := DeskOf(w, p);
      if !d.Claimed? then w
      else
        SetDesk(w.(posts := w.posts + [Post(d.key, msg, d.outcomes)], vanished := w.vanished + multiset{d.key}),
                p, Failed(d.key))
    case Finish(p) => NextFinish(w, p)
    case Crash(p) =>
      var d := DeskOf(w, p);
      SetDesk(if d.Claimed? || d.Posted? || d.Failed? then w.(abandoned := w.abandoned + {d.key}) else w, p, Idle)
  }

  /** The unique key decides between two claims of the same slot. */
  function NextInsert(w: World, p: Publisher): World {
    var d := DeskOf(w, p);
    if !d.Selected? then w
    else if d.key in w.claims then SetDesk(w, p, Idle)
    else SetDesk(w.(claims := w.claims[d.key := None]), p, Claimed(d.key, d.outcomes))
  }

  function NextFinish(w: World, p: Publisher): World {
    match DeskOf(w, p)
    case Reconciling(k, existing) =>
      SetDesk(if k.item in w.items then SetItem(w, k.item, Reconciled(w.items[k.item], existing)) else w, p, Idle)
    case Posted(k, msg) =>
      var marked :=
        if k.item in w.items
        then SetItem(w, k.item, w.items[k.item].(status := Sent, channelMsg := Some(msg))) else w;
      SetDesk(if k in w.claims then marked.(claims := w.claims[k := Some(msg)]) else marked, p, Idle)
    case Failed(k) => SetDesk(w.(claims := w.claims - {k}), p, Idle)
    case _ => w
  }

  function RunFrom(w: World, run: seq<Step>): World
    decreases |run|
  {
    if |run| == 0 then w else Next(RunFrom(w, run[..|run| - 1]), run[|run| - 1])
  }

  function Run(run: seq<Step>): World { RunFrom(START, run) }

  // ── what the history says about one slot ─────────────────────────────────

  function PostsOf(posts: seq<Post>, k: Key): nat {
    if |posts| == 0 then 0
    else PostsOf(posts[..|posts| - 1], k) + (if posts[|posts| - 1].key == k then 1 else 0)
  }

  function LastMsg(posts: seq<Post>, k: Key): Option<MsgId> {
    if |posts| == 0 then None
    else if posts[|posts| - 1].key == k then Some(posts[|posts| - 1].msg)
    else LastMsg(posts[..|posts| - 1], k)
  }

  lemma OneMorePost(posts: seq<Post>, post: Post, k: Key)
    ensures PostsOf(posts + [post], k) == PostsOf(posts, k) + (if post.key == k then 1 else 0)
    ensures LastMsg(posts + [post], k) == if post.key == k then Some(post.msg) else LastMsg(posts, k)
  {
    assert (posts + [post])[..|posts|] == posts;
  }

  /** Deliveries the program knows about. */
  function Confirmed(w: World, k: Key): int { PostsOf(w.posts, k) - w.vanished[k] }

  predicate Holds(w: World, p: Publisher, k: Key) {
    var d := DeskOf(w, p);
    (d.Claimed? || d.Posted? || d.Failed?) && d.key == k
  }

  ghost predicate Held(w: World, k: Key) { exists p :: Holds(w, p, k) }

  /** What ties the deliveries of one slot, its claim row and its owner together. */
  ghost predicate SlotInvariant(w: World, k: Key) {
    && (forall p, q | Holds(w, p, k) && Holds(w, q, k) :: p == q)
    && (forall p | Holds(w, p, k) ::
          && k in w.claims && k !in w.abandoned
          && Confirmed(w, k) == (if DeskOf(w, p).Posted? then 1 else 0)
          && (DeskOf(w, p).Posted? ==> LastMsg(w.posts, k) == Some(DeskOf(w, p).msg)))
    && (k in w.abandoned ==> k in w.claims)
    && 0 <= Confirmed(w, k) <= 1
    && (k !in w.claims ==> Confirmed(w, k) == 0)
    && (k in w.claims && k !in w.abandoned && !Held(w, k) ==>
          Confirmed(w, k) == 1 && w.claims[k] == LastMsg(w.posts, k))
  }
}
