/** At-most-once publishing, and what the claim rows say about it, over every run. */
module PublishingSafety {
  import opened Wrappers
  import opened Publishing

  // ── every step keeps every slot's invariant ──────────────────────────────

  lemma SelectKeepsSlot(w: World, p: Publisher, key: Key, k: Key)
    requires SlotInvariant(w, k)
    ensures SlotInvariant(Next(w, Select(p, key)), k)
  {
    var w' := Next(w, Select(p, key));
    assert forall q :: Holds(w', q, k) <==> Holds(w, q, k);
  }

  lemma InsertKeepsSlot(w: World, p: Publisher, k: Key)
    requires SlotInvariant(w, k)
    ensures SlotInvariant(NextInsert(w, p), k)
  {
    var w' := NextInsert(w, p);
    var d := DeskOf(w, p);
    assert forall q | q != p :: Holds(w', q, k) <==> Holds(w, q, k);
    if d.Selected? && d.key !in w.claims && d.key == k {
      assert Holds(w', p, k);
      assert forall q :: !Holds(w, q, k);
    }
  }

  /** A step that touches neither the slot's row, history nor owner keeps its invariant. */
  lemma SlotFrame(w: World, w': World, k: Key)
    requires SlotInvariant(w, k)
    requires Confirmed(w', k) == Confirmed(w, k) && LastMsg(w'.posts, k) == LastMsg(w.posts, k)
    requires k in w'.abandoned <==> k in w.abandoned
    requires k in w'.claims <==> k in w.claims
    requires k in w.claims ==> w'.claims[k] == w.claims[k]
    requires forall q :: Holds(w', q, k) <==> Holds(w, q, k)
    requires forall q | Holds(w, q, k) :: DeskOf(w', q) == DeskOf(w, q)
    ensures SlotInvariant(w', k)
  {
  }

  lemma OnlyThisDesk(w: World, w': World, p: Publisher, d: Desk)
    requires w'.desks == SetDesk(w, p, d).desks
    ensures DeskOf(w', p) == d
    ensures forall q | q != p :: DeskOf(w', q) == DeskOf(w, q)
  {
  }

  /** The three ways a send can end, for the slot it was for. */
  lemma SendKeepsOwnSlot(w: World, s: Step, k: Key)
    requires SlotInvariant(w, k)
    requires s.Deliver? || s.Refuse? || s.Vanish?
    requires DeskOf(w, s.pub).Claimed? && DeskOf(w, s.pub).key == k
    ensures SlotInvariant(Next(w, s), k)
  {
    var w' := Next(w, s);
    var p, d := s.pub, DeskOf(w, s.pub);
    OnlyThisDesk(w, w', p, DeskOf(w', p));
    assert Holds(w, p, k) && Holds(w', p, k);
    assert forall q :: Holds(w', q, k) <==> Holds(w, q, k);
    if !s.Refuse? {
      OneMorePost(w.posts, Post(d.key, s.msg, d.outcomes), k);
    }
  }

  lemma SendKeepsSlot(w: World, s: Step, k: Key)
    requires SlotInvariant(w, k)
    requires s.Deliver? || s.Refuse? || s.Vanish?
    ensures SlotInvariant(Next(w, s), k)
  {
    var w' := Next(w, s);
    var p, d := s.pub, DeskOf(w, s.pub);
    if d.Claimed? && d.key == k {
      SendKeepsOwnSlot(w, s, k);
    } else if d.Claimed? {
      SendElsewhere(w, s, k);
      OnlyThisDesk(w, w', p, DeskOf(w', p));
      SlotFrame(w, w', k);
    }
  }

  /** What a send for one slot leaves of another. */
  lemma SendElsewhere(w: World, s: Step, k: Key)
    requires s.Deliver? || s.Refuse? || s.Vanish?
    requires DeskOf(w, s.pub).Claimed? && DeskOf(w, s.pub).key != k
    ensures var w' := Next(w, s);
            && Confirmed(w', k) == Confirmed(w, k) && LastMsg(w'.posts, k) == LastMsg(w.posts, k)
            && w'.abandoned == w.abandoned && w'.claims == w.claims
            && w'.desks == SetDesk(w, s.pub, DeskOf(w', s.pub)).desks && !Holds(w', s.pub, k)
  {
    var d := DeskOf(w, s.pub);
    if !s.Refuse? {
      OneMorePost(w.posts, Post(d.key, s.msg, d.outcomes), k);
    }
  }

  lemma FinishKeepsOwnSlot(w: World, p: Publisher, k: Key)
    requires SlotInvariant(w, k)
    requires Holds(w, p, k) && !DeskOf(w, p).Claimed?
    ensures SlotInvariant(NextFinish(w, p), k)
  {
    var w' := NextFinish(w, p);
    OnlyThisDesk(w, w', p, Idle);
    forall q
      ensures !Holds(w', q, k)
    {
      assert q != p ==> !Holds(w, q, k);
    }
  }

  /** What finishing leaves alone of another slot. */
  lemma FinishElsewhere(w: World, p: Publisher, k: Key)
    requires DeskOf(w, p).Reconciling? || ((DeskOf(w, p).Posted? || DeskOf(w, p).Failed?) && DeskOf(w, p).key != k)
    ensures var w' := NextFinish(w, p);
            && w'.posts == w.posts && w'.vanished == w.vanished && w'.abandoned == w.abandoned
            && (k in w'.claims <==> k in w.claims) && (k in w.claims ==> w'.claims[k] == w.claims[k])
            && w'.desks == w.desks - {p}
  {
  }

  lemma FinishKeepsSlot(w: World, p: Publisher, k: Key)
    requires SlotInvariant(w, k)
    ensures SlotInvariant(NextFinish(w, p), k)
  {
    var d := DeskOf(w, p);
    if (d.Posted? || d.Failed?) && d.key == k {
      FinishKeepsOwnSlot(w, p, k);
    } else if d.Posted? || d.Failed? || d.Reconciling? {
      FinishElsewhere(w, p, k);
      DeskClearedElsewhere(w, NextFinish(w, p), p, k);
    }
  }

  lemma DeskClearedElsewhere(w: World, w': World, p: Publisher, k: Key)
    requires SlotInvariant(w, k) && !Holds(w, p, k)
    requires w'.posts == w.posts && w'.vanished == w.vanished && w'.abandoned == w.abandoned
    requires (k in w'.claims <==> k in w.claims) && (k in w.claims ==> w'.claims[k] == w.claims[k])
    requires w'.desks == w.desks - {p}
    ensures SlotInvariant(w', k)
  {
    OnlyThisDesk(w, w', p, Idle);
    SlotFrame(w, w', k);
  }

  lemma CrashKeepsSlot(w: World, p: Publisher, k: Key)
    requires SlotInvariant(w, k)
    ensures SlotInvariant(Next(w, Crash(p)), k)
  {
    var w' := Next(w, Crash(p));
    assert !Holds(w', p, k);
    assert forall q | q != p :: Holds(w', q, k) <==> Holds(w, q, k);
    if Holds(w, p, k) {
      assert k in w'.abandoned;
    } else {
      assert Held(w', k) <==> Held(w, k) by {
        assert forall q :: Holds(w', q, k) <==> Holds(w, q, k);
      }
    }
  }

  lemma NextKeepsSlot(w: World, s: Step, k: Key)
    requires SlotInvariant(w, k)
    ensures SlotInvariant(Next(w, s), k)
  {
    match s
    case Select(p, key) => SelectKeepsSlot(w, p, key, k);
    case Insert(p) => InsertKeepsSlot(w, p, k);
    case Deliver(_, _) => SendKeepsSlot(w, s, k);
    case Refuse(_) => SendKeepsSlot(w, s, k);
    case Vanish(_, _) => SendKeepsSlot(w, s, k);
    case Finish(p) => FinishKeepsSlot(w, p, k);
    case Crash(p) => CrashKeepsSlot(w, p, k);
    case _ =>
      var w' := Next(w, s);
      assert forall q :: Holds(w', q, k) <==> Holds(w, q, k);
  }

  lemma {:induction false} SlotInvariantInEveryRun(run: seq<Step>, k: Key)
    ensures SlotInvariant(Run(run), k)
    decreases |run|
  {
    if |run| > 0 {
      SlotInvariantInEveryRun(run[..|run| - 1], k);
      NextKeepsSlot(Run(run[..|run| - 1]), run[|run| - 1], k);
    }
  }

  // ── at most once ─────────────────────────────────────────────────────────

  /** Sends of a run that the channel received but the program saw fail. */
  function Vanishings(run: seq<Step>): nat {
    if |run| == 0 then 0 else Vanishings(run[..|run| - 1]) + (if run[|run| - 1].Vanish? then 1 else 0)
  }

  lemma OnlyVanishVanishes(w: World, s: Step, k: Key)
    ensures Next(w, s).vanished[k] <= w.vanished[k] + if s.Vanish? then 1 else 0
  {
    if s.Vanish? && DeskOf(w, s.pub).Claimed? {
      assert Next(w, s).vanished == w.vanished + multiset{DeskOf(w, s.pub).key};
    } else {
      assert Next(w, s).vanished == w.vanished;
    }
  }

  lemma {:induction false} VanishedAreCounted(run: seq<Step>, k: Key)
    ensures Run(run).vanished[k] <= Vanishings(run)
    decreases |run|
  {
    if |run| > 0 {
      VanishedAreCounted(run[..|run| - 1], k);
      OnlyVanishVanishes(Run(run[..|run| - 1]), run[|run| - 1], k);
    }
  }

  /** Over every interleaving of any number of publishers, with crashes at any point,
      failed sends, re-renders and admin actions in between, a slot receives at most one
      message more than the sends for it that failed after having been delivered. */
  lemma AtMostOncePerSlot(run: seq<Step>, k: Key)
    ensures PostsOf(Run(run).posts, k) <= 1 + Run(run).vanished[k]
    ensures PostsOf(Run(run).posts, k) <= 1 + Vanishings(run)
  {
    SlotInvariantInEveryRun(run, k);
    VanishedAreCounted(run, k);
  }

  /** When a failed send delivered nothing, no slot ever receives two messages. */
  lemma AtMostOnce(run: seq<Step>, k: Key)
    requires forall s <- run :: !s.Vanish?
    ensures PostsOf(Run(run).posts, k) <= 1
  {
    NoVanishings(run);
    AtMostOncePerSlot(run, k);
  }

  lemma {:induction false} NoVanishings(run: seq<Step>)
    requires forall s <- run :: !s.Vanish?
    ensures Vanishings(run) == 0
    decreases |run|
  {
    if |run| > 0 {
      assert forall s <- run[..|run| - 1] :: s in run;
      NoVanishings(run[..|run| - 1]);
    }
  }

  // ── the claim table is the delivery log ──────────────────────────────────

  /** For a slot nobody is working on and nobody died holding: there is a claim row
      exactly when one send was confirmed, and the row carries the id of the slot's
      latest message; a failed send has left no row behind. */
  lemma ClaimsMirrorDeliveries(run: seq<Step>, k: Key)
    requires !Held(Run(run), k) && k !in Run(run).abandoned
    ensures var w := Run(run);
            && (k in w.claims <==> Confirmed(w, k) == 1)
            && (k !in w.claims <==> Confirmed(w, k) == 0)
            && (k in w.claims ==> w.claims[k].Some? && w.claims[k] == LastMsg(w.posts, k))
  {
    SlotInvariantInEveryRun(run, k);
    PostedHasMessage(Run(run).posts, k);
  }

  lemma {:induction false} PostedHasMessage(posts: seq<Post>, k: Key)
    ensures PostsOf(posts, k) > 0 <==> LastMsg(posts, k).Some?
    decreases |posts|
  {
    if |posts| > 0 {
      PostedHasMessage(posts[..|posts| - 1], k);
    }
  }

  /** Only a slot whose owner died can be claimed for ever without a message. */
  lemma MissedSlotsWereAbandoned(run: seq<Step>, k: Key)
    requires k in Run(run).claims && Confirmed(Run(run), k) == 0 && !Held(Run(run), k)
    ensures k in Run(run).abandoned
  {
    SlotInvariantInEveryRun(run, k);
  }

  // ── one publisher at a time ──────────────────────────────────────────────

  /** The publish job never overlaps itself. */
  ghost predicate OnePublisher(run: seq<Step>, p: Publisher) {
    forall s <- run :: (s.Select? || s.Insert? || s.Deliver? || s.Refuse? || s.Vanish? || s.Finish? || s.Crash?)
                       ==> s.pub == p
  }

  /** A sent item has a claim row, and the one publisher never stands on a sent item
      except to reconcile it. */
  ghost predicate SentInvariant(w: World, p: Publisher) {
    && (forall q | q != p :: DeskOf(w, q) == Idle)
    && (forall i | i in w.items && w.items[i].status == Sent :: exists k :: k in w.claims && k.item == i)
    && match DeskOf(w, p)
       case Idle => true
       case Reconciling(k, _) => k in w.claims
       case Selected(k, _) => k.item in w.items && w.items[k.item].status != Sent
       case Claimed(k, _) => k in w.claims && k.item in w.items && w.items[k.item].status != Sent
       case Posted(k, _) => k in w.claims && k.item in w.items && w.items[k.item].status != Sent
       case Failed(k) => k in w.claims && k.item in w.items && w.items[k.item].status != Sent
  }

  lemma FinishKeepsSent(w: World, p: Publisher)
    requires SentInvariant(w, p)
    ensures SentInvariant(NextFinish(w, p), p)
  {
    var w' := NextFinish(w, p);
    var d := DeskOf(w, p);
    assert forall q | q != p :: DeskOf(w', q) == DeskOf(w, q);
    forall i | i in w'.items && w'.items[i].status == Sent
      ensures exists k :: k in w'.claims && k.item == i
    {
      if w.items[i].status == Sent {
        var k :| k in w.claims && k.item == i;
        assert k in w'.claims;
      } else {
        assert d.key.item == i && d.key in w'.claims;
      }
    }
  }

  lemma InsertKeepsSent(w: World, p: Publisher)
    requires SentInvariant(w, p)
    ensures SentInvariant(NextInsert(w, p), p)
  {
    var w' := NextInsert(w, p);
    assert forall q | q != p :: DeskOf(w', q) == DeskOf(w, q);
    assert forall k <- w.claims :: k in w'.claims;
  }

  /** A step of the crawler, the render job or an admin makes no item sent. */
  lemma OutsideSendsNothing(w: World, s: Step, i: ItemId)
    requires s.Crawl? || s.AutoApprove? || s.Curate? || s.Render?
    ensures i in w.items ==> i in Next(w, s).items
    ensures i in Next(w, s).items && Next(w, s).items[i].status == Sent ==> i in w.items && w.items[i].status == Sent
  {
  }

  lemma OutsideKeepsSent(w: World, s: Step, p: Publisher)
    requires SentInvariant(w, p)
    requires s.Crawl? || s.AutoApprove? || s.Curate? || s.Render?
    ensures SentInvariant(Next(w, s), p)
  {
    var w' := Next(w, s);
    assert w'.claims == w.claims && w'.desks == w.desks;
    assert forall q :: DeskOf(w', q) == DeskOf(w, q);
    forall i: ItemId
      ensures i in w.items ==> i in w'.items
      ensures i in w'.items && w'.items[i].status == Sent ==> i in w.items && w.items[i].status == Sent
    {
      OutsideSendsNothing(w, s, i);
    }
  }

  lemma SelectKeepsSent(w: World, p: Publisher, k: Key)
    requires SentInvariant(w, p)
    ensures SentInvariant(Next(w, Select(p, k)), p)
  {
    assert forall q | q != p :: DeskOf(Next(w, Select(p, k)), q) == DeskOf(w, q);
  }

  lemma SendKeepsSent(w: World, s: Step, p: Publisher)
    requires SentInvariant(w, p)
    requires (s.Deliver? || s.Refuse? || s.Vanish? || s.Crash?) && s.pub == p
    ensures SentInvariant(Next(w, s), p)
  {
    var w' := Next(w, s);
    assert w'.claims == w.claims && w'.items == w.items;
    assert forall q | q != p :: DeskOf(w', q) == DeskOf(w, q);
  }

  lemma NextKeepsSent(w: World, s: Step, p: Publisher)
    requires SentInvariant(w, p) && OnePublisher([s], p)
    ensures SentInvariant(Next(w, s), p)
  {
    assert s in [s];
    match s
    case Finish(_) => FinishKeepsSent(w, p);
    case Insert(_) => InsertKeepsSent(w, p);
    case Select(_, k) => SelectKeepsSent(w, p, k);
    case Crawl(_) => OutsideKeepsSent(w, s, p);
    case AutoApprove(_) => OutsideKeepsSent(w, s, p);
    case Curate(_, _) => OutsideKeepsSent(w, s, p);
    case Render(_, _) => OutsideKeepsSent(w, s, p);
    case _ => SendKeepsSent(w, s, p);
  }

  lemma {:induction false} SentInvariantInEveryRun(run: seq<Step>, p: Publisher)
    requires OnePublisher(run, p)
    ensures SentInvariant(Run(run), p)
    decreases |run|
  {
    if |run| > 0 {
      var before, s := run[..|run| - 1], run[|run| - 1];
      assert forall x <- before :: x in run;
      assert s in run;
      SentInvariantInEveryRun(before, p);
      NextKeepsSent(Run(before), s, p);
    }
  }

  /** With one publisher at a time, in every run, crashes included, an item marked sent
      has a claim row that its publisher is not about to release. */
  lemma SentHasClaim(run: seq<Step>, p: Publisher, i: ItemId) returns (k: Key)
    requires OnePublisher(run, p)
    requires i in Run(run).items && Run(run).items[i].status == Sent
    ensures k.item == i && k in Run(run).claims && !Held(Run(run), k)
  {
    SentInvariantInEveryRun(run, p);
    k :| k in Run(run).claims && k.item == i;
  }

  /** If moreover nobody crashed and failed sends delivered nothing, an item marked sent
      was delivered exactly once in that slot, and its row carries that message's id. */
  lemma SentMeansDelivered(run: seq<Step>, p: Publisher, i: ItemId) returns (k: Key)
    requires OnePublisher(run, p)
    requires forall s <- run :: !s.Vanish? && !s.Crash?
    requires i in Run(run).items && Run(run).items[i].status == Sent
    ensures k.item == i && PostsOf(Run(run).posts, k) == 1
    ensures k in Run(run).claims && Run(run).claims[k].Some? && Run(run).claims[k] == LastMsg(Run(run).posts, k)
  {
    k := SentHasClaim(run, p, i);
    NobodyAbandons(run);
    NoVanishings(run);
    VanishedAreCounted(run, k);
    ClaimsMirrorDeliveries(run, k);
  }

  lemma {:induction false} NobodyAbandons(run: seq<Step>)
    requires forall s <- run :: !s.Crash?
    ensures Run(run).abandoned == {}
    decreases |run|
  {
    if |run| > 0 {
      assert run[|run| - 1] in run && forall s <- run[..|run| - 1] :: s in run;
      NobodyAbandons(run[..|run| - 1]);
      OnlyCrashesAbandon(Run(run[..|run| - 1]), run[|run| - 1]);
    }
  }

  lemma OnlyCrashesAbandon(w: World, s: Step)
    requires !s.Crash?
    ensures Next(w, s).abandoned == w.abandoned
  {
  }
}
