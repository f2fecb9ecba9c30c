/** The weekly budgets for generated images and news text, and what the spend ledger they are
    computed from can ever hold. */
module UsageBudget {
  import opened Wrappers

  datatype Kind = Image | Text

  /** One row of the spend ledger. */
  datatype Row = Row(ts: real, kind: Kind, cost: real, ok: bool)

  /** One call to a provider: when its gate reads the ledger, the time its row is stamped with,
      what it costs, whether it succeeds, and whether the provider is set up at all. */
  datatype Call =
    | GeminiImage(gate: real, stamp: real, cost: real, ok: bool, configured: bool)
    | GeminiText(gate: real, stamp: real, cost: real, ok: bool, configured: bool)
    | ClaudeText(gate: real, stamp: real, cost: real, ok: bool, configured: bool)

  datatype Budgets = Budgets(image: real, text: real)

  // The rolling window, in days.
  const WEEK := 7.0

  function KindOf(call: Call): Kind { if call.GeminiImage? then Image else Text }

  function CostIf(row: Row, kind: Kind, from: real): real {
    if row.kind == kind && row.ts >= from then row.cost else 0.0
  }

  /** The spend of one kind since a moment, as the gate sums it. */
  function SpendSince(rows: seq<Row>, kind: Kind, from: real): real {
    if |rows| == 0 then 0.0
    else SpendSince(rows[..|rows| - 1], kind, from) + CostIf(rows[|rows| - 1], kind, from)
  }

  predicate Passes(rows: seq<Row>, call: Call, budgets: Budgets) {
    var spent := SpendSince(rows, KindOf(call), call.gate - WEEK);
    call.configured &&
    match call
    case GeminiImage(_, _, cost, _, _) => spent + cost <= budgets.image
    case GeminiText(_, _, cost, _, _) => budgets.text <= 0.0 || spent + cost <= budgets.text
    case ClaudeText(_, _, _, _, _) => budgets.text <= 0.0 || spent < budgets.text
  }

  /** A failed Gemini call is recorded at no cost; a Claude call costs what it reports. */
  function Charge(call: Call): real { if call.ClaudeText? || call.ok then call.cost else 0.0 }

  function After(rows: seq<Row>, call: Call, budgets: Budgets): seq<Row> {
    if Passes(rows, call, budgets) then rows + [Row(call.stamp, KindOf(call), Charge(call), call.ok)] else rows
  }

  /** The ledger after serialized calls under fixed budgets. */
  function Run(calls: seq<Call>, budgets: Budgets): seq<Row> {
    if |calls| == 0 then [] else After(Run(calls[..|calls| - 1], budgets), calls[|calls| - 1], budgets)
  }

  // ── the providers ────────────────────────────────────────────────────────

  class Ledger {
    var rows: seq<Row>

    method Record(ts: real, kind: Kind, cost: real, ok: bool)
      modifies this
      ensures rows == old(rows) + [Row(ts, kind, cost, ok)]
    {
      rows := rows + [Row(ts, kind, cost, ok)];
    }

    method GenerateImage(gate: real, stamp: real, cost: real, ok: bool, configured: bool, budgets: Budgets)
      returns (made: bool)
      modifies this
      ensures rows == After(old(rows), GeminiImage(gate, stamp, cost, ok, configured), budgets)
      ensures var passes := configured && SpendSince(old(rows), Image, gate - 7.0) + cost <= budgets.image;
              && made == (passes && ok)
              && rows == old(rows) + if passes then [Row(stamp, Image, if ok then cost else 0.0, ok)] else []
    {
      made := false;
      if !configured {
        return;
      }
      var spent := SpendSince(rows, Image, gate - WEEK);
      if spent + cost > budgets.image {
        return;
      }
      if !ok {
        Record(stamp, Image, 0.0, false);
        return;
      }
      Record(stamp, Image, cost, true);
      made := true;
    }

    method GenerateGeminiText(gate: real, stamp: real, cost: real, ok: bool, configured: bool, budgets: Budgets)
      returns (made: bool)
      modifies this
      ensures rows == After(old(rows), GeminiText(gate, stamp, cost, ok, configured), budgets)
      ensures var passes := configured &&
                (budgets.text <= 0.0 || SpendSince(old(rows), Text, gate - 7.0) + cost <= budgets.text);
              && made == (passes && ok)
              && rows == old(rows) + if passes then [Row(stamp, Text, if ok then cost else 0.0, ok)] else []
    {
      made := false;
      if !configured {
        return;
      }
      if budgets.text > 0.0 {
        var spent := SpendSince(rows, Text, gate - WEEK);
        if spent + cost > budgets.text {
          return;
        }
      }
      if !ok {
        Record(stamp, Text, 0.0, false);
        return;
      }
      Record(stamp, Text, cost, true);
      made := true;
    }

    method GenerateClaudeText(gate: real, stamp: real, reported: real, ok: bool, configured: bool, budgets: Budgets)
      returns (made: bool)
      modifies this
      ensures rows == After(old(rows), ClaudeText(gate, stamp, reported, ok, configured), budgets)
      ensures var passes := configured &&
                (budgets.text <= 0.0 || SpendSince(old(rows), Text, gate - 7.0) < budgets.text);
              && made == (passes && ok)
              && rows == old(rows) + if passes then [Row(stamp, Text, reported, ok)] else []
    {
      made := false;
      if !configured {
        return;
      }
      if budgets.text > 0.0 {
        var spent := SpendSince(rows, Text, gate - WEEK);
        if spent >= budgets.text {
          return;
        }
      }
      Record(stamp, Text, reported, ok);
      made := ok;
    }
  }

  // ── every window ─────────────────────────────────────────────────────────

  function CostIn(row: Row, kind: Kind, from: real, to: real): real {
    if row.kind == kind && from <= row.ts <= to then row.cost else 0.0
  }

  function SpendIn(rows: seq<Row>, kind: Kind, from: real, to: real): real {
    if |rows| == 0 then 0.0
    else SpendIn(rows[..|rows| - 1], kind, from, to) + CostIn(rows[|rows| - 1], kind, from, to)
  }

  /** The spend of a window is the sum of the costs of its rows of that kind, each taken once,
      however the ledger is split. */
  lemma {:induction false} SpendAddsUp(a: seq<Row>, b: seq<Row>, kind: Kind, from: real, to: real)
    ensures SpendIn(a + b, kind, from, to) == SpendIn(a, kind, from, to) + SpendIn(b, kind, from, to)
    ensures |b| == 1 ==> SpendIn(b, kind, from, to) == if b[0].kind == kind && from <= b[0].ts <= to then b[0].cost else 0.0
    decreases |b|
  {
    if |b| == 0 {
      assert a + b == a;
    } else {
      assert (a + b)[..|a + b| - 1] == a + b[..|b| - 1];
      SpendAddsUp(a, b[..|b| - 1], kind, from, to);
    }
  }

  /** What the gate sums is the spend of the window up to any moment no row is stamped after. */
  lemma {:induction false} GateSumsTheWindow(rows: seq<Row>, kind: Kind, from: real, to: real)
    requires forall row <- rows :: row.ts <= to
    ensures SpendSince(rows, kind, from) == SpendIn(rows, kind, from, to)
    decreases |rows|
  {
    if |rows| > 0 {
      assert rows[|rows| - 1] in rows && forall row <- rows[..|rows| - 1] :: row in rows;
      GateSumsTheWindow(rows[..|rows| - 1], kind, from, to);
    }
  }

  predicate NoRefunds(rows: seq<Row>) { forall row <- rows :: row.cost >= 0.0 }

  predicate NoNegativeCosts(calls: seq<Call>) { forall call <- calls :: call.cost >= 0.0 }

  /** No row is stamped more than `lag` before its gate read the ledger. */
  predicate StampedWithin(calls: seq<Call>, lag: real) { forall call <- calls :: call.stamp >= call.gate - lag }

  /** Row `i` found room: what its gate can have seen, over a window of this span ending at its
      stamp, was within the budget. */
  predicate FoundRoom(rows: seq<Row>, i: nat, budgets: Budgets, span: real)
    requires i < |rows|
  {
    var row := rows[i];
    var spent := SpendSince(rows[..i], row.kind, row.ts - span);
    row.cost > 0.0 ==>
      (row.kind == Image ==> spent + row.cost <= budgets.image) &&
      (row.kind == Text && budgets.text > 0.0 ==> spent < budgets.text)
  }

  predicate AllFoundRoom(rows: seq<Row>, budgets: Budgets, span: real) {
    forall i | 0 <= i < |rows| :: FoundRoom(rows, i, budgets, span)
  }

  lemma {:induction false} LaterSpendsLess(rows: seq<Row>, kind: Kind, from: real, later: real)
    requires NoRefunds(rows) && from <= later
    ensures 0.0 <= SpendSince(rows, kind, later) <= SpendSince(rows, kind, from)
    decreases |rows|
  {
    if |rows| > 0 {
      assert rows[|rows| - 1] in rows && forall row <- rows[..|rows| - 1] :: row in rows;
      LaterSpendsLess(rows[..|rows| - 1], kind, from, later);
    }
  }

  lemma {:induction false} WindowSpendsLess(rows: seq<Row>, kind: Kind, from: real, to: real)
    requires NoRefunds(rows)
    ensures 0.0 <= SpendIn(rows, kind, from, to) <= SpendSince(rows, kind, from)
    decreases |rows|
  {
    if |rows| > 0 {
      assert rows[|rows| - 1] in rows && forall row <- rows[..|rows| - 1] :: row in rows;
      WindowSpendsLess(rows[..|rows| - 1], kind, from, to);
    }
  }

  lemma RoomForOneMore(rows: seq<Row>, call: Call, budgets: Budgets, lag: real)
    requires NoRefunds(rows) && AllFoundRoom(rows, budgets, WEEK - lag)
    requires call.cost >= 0.0 && call.stamp >= call.gate - lag
    ensures NoRefunds(After(rows, call, budgets)) && AllFoundRoom(After(rows, call, budgets), budgets, WEEK - lag)
  {
    var after := After(rows, call, budgets);
    var span := WEEK - lag;
    forall i | 0 <= i < |after| ensures FoundRoom(after, i, budgets, span) {
      if i < |rows| {
        assert FoundRoom(rows, i, budgets, span) && after[..i] == rows[..i];
      } else {
        assert after[..i] == rows;
        LaterSpendsLess(rows, KindOf(call), call.gate - WEEK, call.stamp - span);
      }
    }
  }

  lemma {:induction false} RunFoundRoom(calls: seq<Call>, budgets: Budgets, lag: real)
    requires NoNegativeCosts(calls) && StampedWithin(calls, lag)
    ensures NoRefunds(Run(calls, budgets)) && AllFoundRoom(Run(calls, budgets), budgets, WEEK - lag)
    decreases |calls|
  {
    if |calls| > 0 {
      var before, last := calls[..|calls| - 1], calls[|calls| - 1];
      assert last in calls && forall call <- before :: call in calls;
      RunFoundRoom(before, budgets, lag);
      RoomForOneMore(Run(before, budgets), last, budgets, lag);
    }
  }

  lemma PrefixFoundRoom(rows: seq<Row>, budgets: Budgets, span: real)
    requires |rows| > 0 && NoRefunds(rows) && AllFoundRoom(rows, budgets, span)
    ensures NoRefunds(rows[..|rows| - 1]) && AllFoundRoom(rows[..|rows| - 1], budgets, span)
    ensures FoundRoom(rows, |rows| - 1, budgets, span) && rows[|rows| - 1].cost >= 0.0
  {
    var before := rows[..|rows| - 1];
    assert rows[|rows| - 1] in rows && forall row <- before :: row in rows;
    forall i | 0 <= i < |before| ensures FoundRoom(before, i, budgets, span) {
      assert FoundRoom(rows, i, budgets, span) && before[..i] == rows[..i];
    }
  }

  lemma {:induction false} ImageWindow(rows: seq<Row>, budgets: Budgets, span: real, start: real)
    requires NoRefunds(rows) && AllFoundRoom(rows, budgets, span)
    ensures SpendIn(rows, Image, start, start + span) <= NonNegative(budgets.image)
    decreases |rows|
  {
    if |rows| > 0 {
      var before, last := rows[..|rows| - 1], rows[|rows| - 1];
      PrefixFoundRoom(rows, budgets, span);
      ImageWindow(before, budgets, span, start);
      if CostIn(last, Image, start, start + span) > 0.0 {
        WindowSpendsLess(before, Image, start, start + span);
        LaterSpendsLess(before, Image, last.ts - span, start);
      }
    }
  }

  /** Over any run of serialized calls under a fixed budget, failures included, the images in
      every window cost no more than the budget. The window is a week when each row is stamped
      no earlier than its gate read the ledger, and shorter by the lag otherwise. */
  lemma ImageSpendWithinBudget(calls: seq<Call>, budgets: Budgets, lag: real, start: real)
    requires NoNegativeCosts(calls) && StampedWithin(calls, lag)
    ensures SpendIn(Run(calls, budgets), Image, start, start + (7.0 - lag)) <= if budgets.image < 0.0 then 0.0 else budgets.image
  {
    RunFoundRoom(calls, budgets, lag);
    ImageWindow(Run(calls, budgets), budgets, WEEK - lag, start);
  }

  /** The last charged row of a kind in a window, or -1. */
  function LastCharge(rows: seq<Row>, kind: Kind, from: real, to: real): (i: int)
    ensures -1 <= i < |rows|
    ensures i >= 0 ==> rows[i].kind == kind && from <= rows[i].ts <= to && rows[i].cost > 0.0
  {
    if |rows| == 0 then -1
    else if CostIn(rows[|rows| - 1], kind, from, to) > 0.0 then |rows| - 1
    else LastCharge(rows[..|rows| - 1], kind, from, to)
  }

  lemma {:induction false} NothingChargedAfter(rows: seq<Row>, kind: Kind, from: real, to: real)
    ensures forall j | LastCharge(rows, kind, from, to) < j < |rows| ::
              rows[j].kind == kind && from <= rows[j].ts <= to ==> rows[j].cost <= 0.0
    decreases |rows|
  {
    if |rows| > 0 {
      NothingChargedAfter(rows[..|rows| - 1], kind, from, to);
    }
  }

  lemma {:induction false} TextWindow(rows: seq<Row>, budgets: Budgets, span: real, start: real)
    requires NoRefunds(rows) && AllFoundRoom(rows, budgets, span) && budgets.text > 0.0
    ensures var i := LastCharge(rows, Text, start, start + span);
            SpendIn(rows, Text, start, start + span) < budgets.text + if i < 0 then 0.0 else rows[i].cost
    decreases |rows|
  {
    if |rows| > 0 {
      var before, last := rows[..|rows| - 1], rows[|rows| - 1];
      PrefixFoundRoom(rows, budgets, span);
      TextWindow(before, budgets, span, start);
      if CostIn(last, Text, start, start + span) > 0.0 {
        WindowSpendsLess(before, Text, start, start + span);
        LaterSpendsLess(before, Text, last.ts - span, start);
      }
    }
  }

  /** With a text budget set, the text charged in every window, from either provider, passes
      the budget by less than its last charge; what a Claude call costs is known only after. */
  lemma TextOvershootsByOneCall(calls: seq<Call>, budgets: Budgets, lag: real, start: real)
    requires NoNegativeCosts(calls) && StampedWithin(calls, lag) && budgets.text > 0.0
    ensures var rows, span := Run(calls, budgets), 7.0 - lag;
            var i := LastCharge(rows, Text, start, start + span);
            SpendIn(rows, Text, start, start + span) < budgets.text + if i < 0 then 0.0 else rows[i].cost
  {
    RunFoundRoom(calls, budgets, lag);
    TextWindow(Run(calls, budgets), budgets, WEEK - lag, start);
  }

  /** A row stamped before its gate lets a whole week exceed the budget, however small the lag:
      the gate no longer sees a charge that its own row's week still holds. */
  lemma EarlyStampBreaksTheWeek(cost: real, lag: real) returns (calls: seq<Call>, budgets: Budgets)
    requires cost > 0.0 && lag > 0.0
    ensures NoNegativeCosts(calls) && StampedWithin(calls, lag)
    ensures SpendIn(Run(calls, budgets), Image, 0.0, 7.0) > budgets.image >= cost
  {
    budgets := Budgets(cost, 0.0);
    var first, second := GeminiImage(0.0, 0.0, cost, true, true), GeminiImage(WEEK + lag, WEEK, cost, true, true);
    calls := [first, second];
    assert calls[..1] == [first] && calls[..1][..0] == [];
    var one := Row(0.0, Image, cost, true);
    assert Run(calls[..1], budgets) == [one] by {
      assert SpendSince([], Image, 0.0 - WEEK) == 0.0;
    }
    var two := Row(WEEK, Image, cost, true);
    assert [one][..0] == [] && SpendSince([one], Image, lag) == 0.0;
    assert Run(calls, budgets) == [one, two];
    assert [one, two][..1] == [one];
    assert SpendIn([one], Image, 0.0, WEEK) == cost;
    assert SpendIn([one, two], Image, 0.0, WEEK) == SpendIn([one], Image, 0.0, WEEK) + cost;
  }

  /** Text never eats into the image budget, nor the other way round. */
  lemma {:induction false} KindsAreSeparate(rows: seq<Row>, call: Call, budgets: Budgets, kind: Kind, from: real)
    requires KindOf(call) != kind
    ensures SpendSince(After(rows, call, budgets), kind, from) == SpendSince(rows, kind, from)
  {
    var after := After(rows, call, budgets);
    if after != rows {
      assert after[..|after| - 1] == rows;
    }
  }
}
