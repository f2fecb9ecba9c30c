/** The confirmation desk of one user's session: pending order intents, their confirm and
    decline buttons, and what is executed. */
module OrderConfirmation {
  import opened Wrappers

  type IntentId = string

  // A prompt older than this many seconds no longer confirms anything.
  const TTL := 120.0

  datatype Kind = Limit | Market | Close | Cancel | CancelAll

  /** An order intent as it is stashed; `serial` tells apart intents that are alike. */
  datatype Intent = Intent(serial: nat, kind: Kind, sell: bool, news: bool, ts: real)

  datatype Tap = Tap(id: IntentId, at: real)

  datatype Execution = Execution(intent: Intent, tap: Option<Tap>)

  /** A prompt that was shown: its buttons carry the id. */
  datatype Prompt = Prompt(id: IntentId, serial: nat)

  datatype Desk = Desk(pending: map<IntentId, Intent>, made: nat, prompts: seq<Prompt>, done: seq<Execution>)

  /** Closing, selling, cancelling everything and news bets are confirmed whatever the user's
      preference. */
  predicate AlwaysConfirms(i: Intent) {
    i.kind == CancelAll || i.kind == Close || (i.kind == Market && i.sell) || i.news
  }

  datatype Step =
    | Request(kind: Kind, sell: bool, news: bool, now: real, known: bool, wants: bool, id: IntentId)
    | Confirm(id: IntentId, now: real)
    | Decline(id: IntentId)

  function Execute(d: Desk, i: Intent, tap: Option<Tap>): Desk { d.(done := d.done + [Execution(i, tap)]) }

  /** `known` is whether the user is, `wants` the preference, and `id` the random id drawn. */
  function Next(d: Desk, step: Step): Desk {
    match step
    case Request(kind, sell, news, now, known, wants, id) =>
      if !known then d
      else
        var intent := Intent(d.made, kind, sell, news, now);
        var counted := d.(made := d.made + 1);
        if !AlwaysConfirms(intent) && !wants then Execute(counted, intent, None)
        else counted.(pending := d.pending[id := intent], prompts := d.prompts + [Prompt(id, intent.serial)])
    case Confirm(id, now) =>
      if id !in d.pending then d
      else
        var popped := d.(pending := d.pending - {id});
        if now - d.pending[id].ts > TTL then popped else Execute(popped, d.pending[id], Some(Tap(id, now)))
    case Decline(id) => d.(pending := d.pending - {id})
  }

  const NOTHING := Desk(map[], 0, [], [])

  function RunFrom(d: Desk, steps: seq<Step>): Desk {
    if |steps| == 0 then d else Next(RunFrom(d, steps[..|steps| - 1]), steps[|steps| - 1])
  }

  function Run(steps: seq<Step>): Desk { RunFrom(NOTHING, steps) }

  lemma RunThen(steps: seq<Step>, last: Step)
    ensures Run(steps + [last]) == Next(Run(steps), last)
  {
    assert (steps + [last])[..|steps|] == steps;
  }

  // ── the desk as the session keeps it ─────────────────────────────────────

  class Session {
    var pending: map<IntentId, Intent>
    var made: nat
    ghost var prompts: seq<Prompt>
    ghost var done: seq<Execution>

    ghost function View(): Desk
      reads this
    {
      Desk(pending, made, prompts, done)
    }

    constructor ()
      ensures View() == NOTHING
    {
      pending, made, prompts, done := map[], 0, [], [];
    }

    /** Returns the intent when it is to be executed at once. */
    method RequestOrder(kind: Kind, sell: bool, news: bool, now: real, known: bool, wants: bool, id: IntentId)
      returns (run: Option<Intent>)
      modifies this
      ensures View() == Next(old(View()), Request(kind, sell, news, now, known, wants, id))
      ensures run.Some? <==>
                known && !wants && kind != CancelAll && kind != Close && !(kind == Market && sell) && !news
      ensures run.Some? ==> run.value == Intent(old(made), kind, sell, news, now)
      ensures done == old(done) + if run.Some? then [Execution(run.value, None)] else []
      ensures !known ==> View() == old(View())
      ensures run.Some? ==> pending == old(pending) && prompts == old(prompts)
      ensures known && run.None? ==>
                && pending == old(pending)[id := Intent(old(made), kind, sell, news, now)]
                && prompts == old(prompts) + [Prompt(id, old(made))]
    {
      run := None;
      if !known {
        return;
      }
      var intent := Intent(made, kind, sell, news, now);
      made := made + 1;
      var alwaysConfirm := kind == CancelAll || kind == Close || (kind == Market && sell) || news;
      if !alwaysConfirm && !wants {
        run := Some(intent);
        done := done + [Execution(intent, None)];
        return;
      }
      pending := pending[id := intent];
      prompts := prompts + [Prompt(id, intent.serial)];
    }

    method OnConfirm(id: IntentId, now: real) returns (run: Option<Intent>)
      modifies this
      ensures View() == Next(old(View()), Confirm(id, now))
      ensures pending == old(pending) - {id} && made == old(made) && prompts == old(prompts)
      ensures run == if id in old(pending) && now - old(pending)[id].ts <= 120.0 then Some(old(pending)[id]) else None
      ensures done == old(done) + if run.Some? then [Execution(run.value, Some(Tap(id, now)))] else []
    {
      run := None;
      if id !in pending {
        return;
      }
      var intent := pending[id];
      pending := pending - {id};
      if now - intent.ts > TTL {
        return;
      }
      run := Some(intent);
      done := done + [Execution(intent, Some(Tap(id, now)))];
    }

    method OnDecline(id: IntentId)
      modifies this
      ensures View() == Next(old(View()), Decline(id)) == old(View()).(pending := old(pending) - {id})
    {
      pending := pending - {id};
    }
  }

  // ── every run ────────────────────────────────────────────────────────────

  predicate IsDone(d: Desk, serial: nat) { exists e <- d.done :: e.intent.serial == serial }

  predicate IsPending(d: Desk, serial: nat) { exists id <- d.pending :: d.pending[id].serial == serial }

  predicate PendingWasPrompted(d: Desk) {
    forall id <- d.pending :: d.pending[id].serial < d.made && Prompt(id, d.pending[id].serial) in d.prompts
  }

  predicate PendingDiffers(d: Desk) {
    forall id <- d.pending, other <- d.pending :: d.pending[id].serial == d.pending[other].serial ==> id == other
  }

  predicate PendingIsNotDone(d: Desk) {
    forall id <- d.pending, e <- d.done :: e.intent.serial != d.pending[id].serial
  }

  /** Every pending intent was prompted under its id and is neither done nor pending twice. */
  predicate PendingOnce(d: Desk) { PendingWasPrompted(d) && PendingDiffers(d) && PendingIsNotDone(d) }

  predicate DoneOnce(d: Desk) {
    && (forall e <- d.done :: e.intent.serial < d.made)
    && (forall a, b | 0 <= a < b < |d.done| :: d.done[a].intent.serial != d.done[b].intent.serial)
  }

  /** An execution was the user's choice: their own prompt was tapped in time, or the kind may go
      without a prompt. */
  predicate WasChosen(d: Desk, e: Execution) {
    if e.tap.None? then !AlwaysConfirms(e.intent)
    else e.tap.value.at - e.intent.ts <= TTL && Prompt(e.tap.value.id, e.intent.serial) in d.prompts
  }

  predicate AllChosen(d: Desk) { forall e <- d.done :: WasChosen(d, e) }

  lemma PendingWasPromptedKept(d: Desk, step: Step)
    requires PendingWasPrompted(d)
    ensures PendingWasPrompted(Next(d, step))
  {
  }

  lemma PendingDiffersKept(d: Desk, step: Step)
    requires PendingWasPrompted(d) && PendingDiffers(d)
    ensures PendingDiffers(Next(d, step))
  {
  }

  lemma PendingIsNotDoneKept(d: Desk, step: Step)
    requires PendingOnce(d) && DoneOnce(d)
    ensures PendingIsNotDone(Next(d, step))
  {
  }

  lemma PendingOnceKept(d: Desk, step: Step)
    requires PendingOnce(d) && DoneOnce(d)
    ensures PendingOnce(Next(d, step))
  {
    PendingWasPromptedKept(d, step);
    PendingDiffersKept(d, step);
    PendingIsNotDoneKept(d, step);
  }

  lemma DoneOnceKept(d: Desk, step: Step)
    requires PendingOnce(d) && DoneOnce(d)
    ensures DoneOnce(Next(d, step))
  {
  }

  lemma AllChosenKept(d: Desk, step: Step)
    requires PendingOnce(d) && AllChosen(d)
    ensures AllChosen(Next(d, step))
  {
    var n := Next(d, step);
    forall e <- n.done ensures WasChosen(n, e) {
      assert e in d.done ==> WasChosen(d, e);
    }
  }

  /** Every prompt has an intent of its own. */
  predicate PromptsOnce(d: Desk) {
    && (forall p <- d.prompts :: p.serial < d.made)
    && (forall p <- d.prompts, q <- d.prompts :: p.serial == q.serial ==> p == q)
  }

  lemma PromptsOnceKept(d: Desk, step: Step)
    requires PromptsOnce(d)
    ensures PromptsOnce(Next(d, step))
  {
  }

  predicate IsSound(d: Desk) { PendingOnce(d) && DoneOnce(d) && AllChosen(d) && PromptsOnce(d) }

  lemma {:induction false} DeskStaysSound(d: Desk, steps: seq<Step>)
    requires IsSound(d)
    ensures IsSound(RunFrom(d, steps)) && forall p <- d.prompts :: p in RunFrom(d, steps).prompts
    decreases |steps|
  {
    if |steps| > 0 {
      var before, last := RunFrom(d, steps[..|steps| - 1]), steps[|steps| - 1];
      DeskStaysSound(d, steps[..|steps| - 1]);
      PendingOnceKept(before, last);
      DoneOnceKept(before, last);
      AllChosenKept(before, last);
      PromptsOnceKept(before, last);
    }
  }

  lemma DeskIsSoundInEveryRun(steps: seq<Step>)
    ensures IsSound(Run(steps))
  {
    DeskStaysSound(NOTHING, steps);
  }

  /** Each intent is executed at most once, however often its button is tapped and even when
      two prompts draw the same id. */
  lemma ExecutesAtMostOnce(steps: seq<Step>, a: nat, b: nat)
    requires a < |Run(steps).done| && b < |Run(steps).done|
    requires Run(steps).done[a].intent.serial == Run(steps).done[b].intent.serial
    ensures a == b
  {
    DeskIsSoundInEveryRun(steps);
  }

  /** A close, a market sell, a cancel-all or a news bet is executed only by a tap, within the
      time to live, on a prompt shown for that very intent. */
  lemma ConfirmedByItsPrompt(steps: seq<Step>, e: Execution)
    requires e in Run(steps).done
    requires e.intent.kind == CancelAll || e.intent.kind == Close || (e.intent.kind == Market && e.intent.sell) || e.intent.news
    ensures e.tap.Some? && e.tap.value.at - e.intent.ts <= 120.0
    ensures Prompt(e.tap.value.id, e.intent.serial) in Run(steps).prompts
  {
    DeskIsSoundInEveryRun(steps);
    assert WasChosen(Run(steps), e);
  }

  // ── whose button a tap was ───────────────────────────────────────────────

  /** The intent of the latest prompt under an id. */
  function LastSerial(prompts: seq<Prompt>, id: IntentId): Option<nat> {
    if |prompts| == 0 then None
    else if prompts[|prompts| - 1].id == id then Some(prompts[|prompts| - 1].serial)
    else LastSerial(prompts[..|prompts| - 1], id)
  }

  predicate PendingIsLatest(d: Desk) {
    forall id <- d.pending :: LastSerial(d.prompts, id) == Some(d.pending[id].serial)
  }

  lemma LastSerialAfter(prompts: seq<Prompt>, p: Prompt, id: IntentId)
    ensures LastSerial(prompts + [p], id) == if p.id == id then Some(p.serial) else LastSerial(prompts, id)
  {
    assert (prompts + [p])[..|prompts|] == prompts;
  }

  lemma {:induction false} PendingIsLatestInEveryRun(steps: seq<Step>)
    ensures PendingIsLatest(Run(steps))
    decreases |steps|
  {
    if |steps| > 0 {
      var d, last := Run(steps[..|steps| - 1]), steps[|steps| - 1];
      PendingIsLatestInEveryRun(steps[..|steps| - 1]);
      forall id <- Next(d, last).pending
        ensures LastSerial(Next(d, last).prompts, id) == Some(Next(d, last).pending[id].serial)
      {
        if last.Request? {
          LastSerialAfter(d.prompts, Prompt(last.id, d.made), id);
        }
      }
    }
  }

  /** In every reachable state a tap acts on the intent of the latest prompt under its id, or on
      nothing: a button acts on its own intent exactly when no later prompt drew its id. */
  lemma TapActsOnLatestPrompt(steps: seq<Step>, p: Prompt, now: real)
    requires p in Run(steps).prompts
    ensures var d, after := Run(steps), Next(Run(steps), Confirm(p.id, now));
            after.done != d.done ==>
              |after.done| == |d.done| + 1 &&
              (after.done[|d.done|].intent.serial == p.serial <==> LastSerial(d.prompts, p.id) == Some(p.serial))
  {
    PendingIsLatestInEveryRun(steps);
  }

  /** No two prompts of the run drew the same id. */
  predicate IdsNeverRepeat(d: Desk) {
    forall p <- d.prompts, q <- d.prompts :: p.id == q.id ==> p == q
  }

  /** When ids never repeat, the tapped button belonged to no other intent. */
  lemma ConfirmedByItsOwnTap(steps: seq<Step>, e: Execution, p: Prompt)
    requires IdsNeverRepeat(Run(steps)) && e in Run(steps).done && e.tap.Some?
    requires p in Run(steps).prompts && p.id == e.tap.value.id
    ensures p.serial == e.intent.serial
  {
    DeskIsSoundInEveryRun(steps);
    assert WasChosen(Run(steps), e);
  }

  /** A request that ends in a prompt. */
  predicate ShowsPrompt(r: Step) {
    && r.Request? && r.known
    && (r.wants || r.kind == CancelAll || r.kind == Close || (r.kind == Market && r.sell) || r.news)
  }

  /** A step that leaves the prompt under an id alone: it neither taps its buttons nor shows
      another prompt under it. */
  predicate SparesPrompt(step: Step, id: IntentId) { step.id != id || (step.Request? && !ShowsPrompt(step)) }

  lemma {:induction false} PendingIsSpared(d: Desk, steps: seq<Step>, id: IntentId)
    requires id in d.pending && forall step <- steps :: SparesPrompt(step, id)
    ensures id in RunFrom(d, steps).pending && RunFrom(d, steps).pending[id] == d.pending[id]
    decreases |steps|
  {
    if |steps| > 0 {
      assert steps[|steps| - 1] in steps;
      PendingIsSpared(d, steps[..|steps| - 1], id);
    }
  }

  /** A request that ends in a prompt is executed by the first tap on that prompt, whatever
      happened elsewhere meanwhile, exactly when the tap comes in time. */
  lemma TimelyTapExecutes(d: Desk, r: Step, between: seq<Step>, now: real)
    requires ShowsPrompt(r) && forall step <- between :: SparesPrompt(step, r.id)
    ensures var before := RunFrom(Next(d, r), between);
            Next(before, Confirm(r.id, now)).done == before.done +
              if now - r.now <= 120.0
              then [Execution(Intent(d.made, r.kind, r.sell, r.news, r.now), Some(Tap(r.id, now)))] else []
  {
    PendingIsSpared(Next(d, r), between, r.id);
  }

  /** Whenever a request draws the id of an earlier prompt, that prompt's button executes the
      new intent. */
  lemma RepeatedIdConfirmsAnother(steps: seq<Step>, p: Prompt, r: Step, now: real)
    requires p in Run(steps).prompts && ShowsPrompt(r) && r.id == p.id && now - r.now <= 120.0
    ensures var d := Run(steps);
            var after := Next(Next(d, r), Confirm(p.id, now));
            var intent := Intent(d.made, r.kind, r.sell, r.news, r.now);
            after.done == d.done + [Execution(intent, Some(Tap(p.id, now)))] && intent.serial != p.serial
  {
    DeskIsSoundInEveryRun(steps);
  }

  /** In some continuation an execution of the new intent comes from an earlier prompt's button. */
  ghost predicate EarlierButtonActs(d: Desk, r: Step) {
    exists p, future, e :: p in d.prompts && IsTapOn(RunFrom(Next(d, r), future), e, d.made, p.id)
  }

  ghost predicate IsTapOn(d: Desk, e: Execution, serial: nat, id: IntentId) {
    e in d.done && e.intent.serial == serial && e.tap.Some? && e.tap.value.id == id
  }

  /** What a request can check before it shows its prompt: no earlier button will ever act on
      the new intent exactly when no earlier prompt has the id just drawn. */
  lemma OwnButtonExactly(steps: seq<Step>, r: Step)
    requires ShowsPrompt(r)
    ensures EarlierButtonActs(Run(steps), r) <==> exists p <- Run(steps).prompts :: p.id == r.id
  {
    var d := Run(steps);
    DeskIsSoundInEveryRun(steps);
    if p :| p in d.prompts && p.id == r.id {
      var tap := Confirm(p.id, r.now);
      RepeatedIdConfirmsAnother(steps, p, r, r.now);
      assert RunFrom(Next(d, r), [tap]) == Next(Next(d, r), tap) by {
        assert [tap][..0] == [];
      }
      var e := Execution(Intent(d.made, r.kind, r.sell, r.news, r.now), Some(Tap(p.id, r.now)));
      assert IsTapOn(RunFrom(Next(d, r), [tap]), e, d.made, p.id);
    }
    if EarlierButtonActs(d, r) {
      var p, future, e :| p in d.prompts && IsTapOn(RunFrom(Next(d, r), future), e, d.made, p.id);
      OnlyPromptedIdActs(steps, r, future, e);
    }
  }

  /** An execution of the new intent by a tap was a tap on the id it was prompted under. */
  lemma OnlyPromptedIdActs(steps: seq<Step>, r: Step, future: seq<Step>, e: Execution)
    requires ShowsPrompt(r)
    requires e in RunFrom(Next(Run(steps), r), future).done && e.intent.serial == Run(steps).made && e.tap.Some?
    ensures e.tap.value.id == r.id
  {
    var d, after := Run(steps), RunFrom(Next(Run(steps), r), future);
    RunThen(steps, r);
    DeskIsSoundInEveryRun(steps + [r]);
    DeskStaysSound(Next(d, r), future);
    assert WasChosen(after, e);
    assert Prompt(r.id, d.made) in Next(d, r).prompts;
  }

  predicate Gone(d: Desk, serial: nat) { serial < d.made && !IsDone(d, serial) && !IsPending(d, serial) }

  lemma GoneIsKept(d: Desk, serial: nat, step: Step)
    requires Gone(d, serial)
    ensures Gone(Next(d, step), serial)
  {
  }

  /** An intent that left the desk without being executed is never executed later. */
  lemma {:induction false} GoneStaysGone(d: Desk, serial: nat, steps: seq<Step>)
    requires Gone(d, serial)
    ensures Gone(RunFrom(d, steps), serial)
    decreases |steps|
  {
    if |steps| > 0 {
      GoneStaysGone(d, serial, steps[..|steps| - 1]);
      GoneIsKept(RunFrom(d, steps[..|steps| - 1]), serial, steps[|steps| - 1]);
    }
  }

  /** Declining, or tapping too late, makes the intent under that id one of those. */
  lemma DeclinedOrExpiredIsGone(steps: seq<Step>, id: IntentId, step: Step)
    requires id in Run(steps).pending
    requires step == Decline(id) || (step.Confirm? && step.id == id && step.now - Run(steps).pending[id].ts > 120.0)
    ensures Gone(Next(Run(steps), step), Run(steps).pending[id].serial)
  {
    DeskIsSoundInEveryRun(steps);
  }
}
