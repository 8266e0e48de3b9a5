/**
 How the agent turns a manager's message into a discount: percentages found in the text, a language
 model asked at most twice, and the checks between them. The model may answer anything.
 */
module DiscountExtraction {
  import opened Wrappers
  import opened Text
  import opened Percent

  /** A decimal coefficient / 10^places; Python compares decimals by value. */
  datatype Decimal = Decimal(coefficient: int, places: nat)

  const ZERO := Decimal(0, 0)

  predicate Same(a: Decimal, b: Decimal) {
    a.coefficient * Pow10(b.places) == b.coefficient * Pow10(a.places)
  }

  predicate OutOfRange(d: Decimal) {
    d.coefficient < 0 || d.coefficient > 100 * Pow10(d.places)
  }

  /** What the model extracted; the schema rules out a percentage without a mention. */
  datatype Extracted = Extracted(mentioned: bool, requested: Option<Decimal>)

  predicate MeetsSchema(e: Extracted) {
    && (!e.mentioned ==> e.requested.None?)
    && (e.requested.Some? ==> !OutOfRange(e.requested.value))
  }

  datatype Reply = ASK_RANGE | ASK_PRECISION | ASK_FOR_NUMBER | NOT_UNDERSTOOD

  /** What the model does when asked: an answer that does not meet the schema, one that does, or an exception, which may
      be one of the temporary ones that the consumer retries. */
  datatype ModelAnswer = Malformed | Answer(extracted: Extracted) | Raises(temporary: bool)

  datatype Decision = Discount(value: Decimal) | Respond(reply: Reply) | Fails(temporary: bool)

  // ---------- the explicit percentages ----------

  function Complaint(d: Decimal): Option<Reply> {
    if OutOfRange(d) then Some(ASK_RANGE) else if d.places > 2 then Some(ASK_PRECISION) else None
  }

  predicate AllAcceptable(values: seq<Decimal>) {
    forall k :: 0 <= k < |values| ==> Complaint(values[k]).None?
  }

  /** The complaint about the first percentage that gives cause. */
  function FirstComplaint(values: seq<Decimal>): (r: Option<Reply>)
    ensures r.None? <==> AllAcceptable(values)
  {
    if values == [] then None
    else if Complaint(values[0]).Some? then Complaint(values[0])
    else FirstComplaint(values[1..])
  }

  /** A percentage is acceptable within 0..100 and with at most two decimals; the range is looked at first. */
  lemma ComplaintsMean(d: Decimal)
    ensures Complaint(d) ==
            if d.coefficient < 0 || d.coefficient > 100 * Pow10(d.places) then Some(ASK_RANGE)
            else if d.places > 2 then Some(ASK_PRECISION) else None
    ensures MeetsSchema(Extracted(true, Some(d))) <==> 0 <= d.coefficient <= 100 * Pow10(d.places)
  {
  }

  method ValidateExplicitValues(values: seq<Decimal>) returns (r: Option<Reply>)
    ensures r == FirstComplaint(values)
    ensures r.None? <==> forall k :: 0 <= k < |values| ==>
              0 <= values[k].coefficient <= 100 * Pow10(values[k].places) && values[k].places <= 2
  {
    for n := 0 to |values|
      invariant FirstComplaint(values) == FirstComplaint(values[n..])
    {
      if values[n].coefficient < 0 || values[n].coefficient > 100 * Pow10(values[n].places) {
        return Some(ASK_RANGE);
      }
      if values[n].places > 2 {
        return Some(ASK_PRECISION);
      }
    }
    return None;
  }

  /** One representative of each value, as in a Python set. */
  function Distinct(values: seq<Decimal>): seq<Decimal> {
    if values == [] then []
    else
      var rest := Distinct(values[..|values| - 1]);
      if HasSame(rest, values[|values| - 1]) then rest else rest + [values[|values| - 1]]
  }

  predicate HasSame(values: seq<Decimal>, d: Decimal) {
    exists k :: 0 <= k < |values| && Same(values[k], d)
  }

  predicate AllSame(values: seq<Decimal>, d: Decimal) {
    forall k :: 0 <= k < |values| ==> Same(values[k], d)
  }

  lemma MulCancel(a: int, b: int, p: int)
    requires p > 0 && a * p == b * p
    ensures a == b
  {
  }

  lemma MulBoth(a: int, b: int, p: int)
    requires a == b
    ensures a * p == b * p
  {
  }

  lemma MulSwap(a: int, p: int, q: int)
    ensures a * p * q == a * q * p
  {
  }

  lemma CrossCancel(x: int, y: int, z: int, p: int, q: int, r: int)
    requires q > 0 && x * q == y * p && y * r == z * q
    ensures x * r == z * p
  {
    MulBoth(x * q, y * p, r);
    MulSwap(y, p, r);
    MulBoth(y * r, z * q, p);
    assert x * q * r == z * q * p;
    MulSwap(x, q, r);
    MulSwap(z, q, p);
    MulCancel(x * r, z * p, q);
  }

  lemma SameIsTransitive(a: Decimal, b: Decimal, c: Decimal)
    requires Same(a, b) && Same(b, c)
    ensures Same(a, c)
  {
    CrossCancel(a.coefficient, b.coefficient, c.coefficient, Pow10(a.places), Pow10(b.places), Pow10(c.places));
  }

  /** A set of values has the requested one as its only member exactly when all the values equal it. */
  lemma {:induction false} DistinctIsSingle(values: seq<Decimal>, d: Decimal)
    ensures |Distinct(values)| == 1 && HasSame(Distinct(values), d) <==> values != [] && AllSame(values, d)
    ensures values != [] ==> |Distinct(values)| >= 1
  {
    if values != [] {
      var front, x := values[..|values| - 1], values[|values| - 1];
      DistinctIsSingle(front, d);
      assert values == front + [x];
      assert AllSame(values, d) <==> AllSame(front, d) && Same(x, d);
      if front == [] {
        assert Distinct(values) == [x];
        assert Same(x, d) ==> Same(Distinct(values)[0], d);
      } else if |Distinct(front)| == 1 {
        OnlyMember(Distinct(front)[0], x, d);
        assert Distinct(front) == [Distinct(front)[0]];
      }
    }
  }

  lemma OnlyMember(y: Decimal, x: Decimal, d: Decimal)
    ensures Same(y, d) ==> (HasSame([y], x) <==> Same(x, d))
    ensures HasSame([y], d) <==> Same(y, d)
  {
    assert [y][0] == y;
    if Same(y, d) {
      if Same(y, x) {
        SameIsTransitive(x, y, d);
      }
      if Same(x, d) {
        SameIsTransitive(y, d, x);
      }
    }
  }

  // ---------- the decision ----------

  /** The model's last word: only a malformed answer makes the agent ask again. */
  function LastWord(answers: seq<ModelAnswer>): ModelAnswer
    requires |answers| == 2
  {
    if answers[0].Malformed? then answers[1] else answers[0]
  }

  /** No discount is mentioned anywhere, or the model found the one acceptable percentage of the text. */
  predicate Settles(context: bool, explicit: seq<Decimal>, e: Extracted) {
    if e.mentioned
    then e.requested.Some? && explicit != [] && AllSame(explicit, e.requested.value) && AllAcceptable(explicit)
    else !context
  }

  /** The text is rejected before the model is asked. */
  predicate RejectedAtOnce(context: bool, explicit: seq<Decimal>) {
    context && !AllAcceptable(explicit)
  }

  /** hasWord says that the message mentions a discount; answers are what the model would do at each attempt. */
  method ExtractDiscount(hasWord: bool, followUp: bool, explicit: seq<Decimal>, answers: seq<ModelAnswer>)
    returns (decision: Decision, asked: nat)
    requires |answers| == 2
    requires forall k :: 0 <= k < 2 && answers[k].Answer? ==> MeetsSchema(answers[k].extracted)
    ensures asked == if RejectedAtOnce(followUp || hasWord, explicit) then 0 else if answers[0].Malformed? then 2 else 1
    ensures var e := LastWord(answers);
            decision.Discount? <==> asked > 0 && e.Answer? && Settles(followUp || hasWord, explicit, e.extracted)
    ensures var e := LastWord(answers);
            decision.Discount? ==> decision.value == if e.extracted.mentioned then e.extracted.requested.value else ZERO
    // The discount is zero when nothing mentions one, and otherwise the one percentage of the text that the model found.
    ensures decision.Discount? ==>
              var e := LastWord(answers).extracted;
              if e.mentioned then
                && e.requested == Some(decision.value) && explicit != []
                && forall k :: 0 <= k < |explicit| ==>
                     && 0 <= explicit[k].coefficient <= 100 * Pow10(explicit[k].places) && explicit[k].places <= 2
                     && explicit[k].coefficient * Pow10(decision.value.places) == decision.value.coefficient * Pow10(explicit[k].places)
              else !followUp && !hasWord && decision.value.coefficient == 0
    ensures decision.Fails? <==> asked > 0 && LastWord(answers).Raises?
    ensures decision.Fails? ==> decision.temporary == LastWord(answers).temporary
    ensures decision == Respond(NOT_UNDERSTOOD) <==> asked > 0 && LastWord(answers).Malformed?
    ensures decision.Respond? && decision.reply in {ASK_RANGE, ASK_PRECISION} <==>
              !AllAcceptable(explicit)
              && (asked == 0 || (LastWord(answers).Answer? && LastWord(answers).extracted.requested.Some?))
    ensures decision.Respond? && decision.reply in {ASK_RANGE, ASK_PRECISION} ==> Some(decision.reply) == FirstComplaint(explicit)
  {
    var context := followUp || hasWord;
    asked := 0;
    if context {
      var complaint := ValidateExplicitValues(explicit);
      if complaint.Some? {
        ComplaintKinds(explicit);
        return Respond(complaint.value), asked;
      }
    }
    var facts: Option<Extracted> := None;
    while asked < 2 && facts.None?
      invariant asked <= 2
      invariant asked > 0 ==> facts == Extraction(if asked == 1 then answers[0] else LastWord(answers))
      invariant asked == 0 ==> facts.None?
      invariant asked == 2 ==> answers[0].Malformed?
      invariant asked == 1 && facts.None? ==> answers[0].Malformed?
      invariant asked == 2 && facts.None? ==> answers[1].Malformed?
    {
      var answer := answers[asked];
      asked := asked + 1;
      match answer {
        case Answer(extracted) => facts := Some(extracted);
        case Malformed =>
        case Raises(temporary) => return Fails(temporary), asked;
      }
    }
    if facts.None? {
      return Respond(NOT_UNDERSTOOD), asked;
    }
    decision := Decide(context, explicit, facts.value);
  }

  function Extraction(answer: ModelAnswer): Option<Extracted> {
    if answer.Answer? then Some(answer.extracted) else None
  }

  /** What follows from a well-formed answer of the model. */
  method Decide(context: bool, explicit: seq<Decimal>, facts: Extracted) returns (decision: Decision)
    requires MeetsSchema(facts)
    ensures decision.Discount? <==> Settles(context, explicit, facts)
    ensures decision.Discount? ==> decision.value == if facts.mentioned then facts.requested.value else ZERO
    ensures decision.Respond? <==> !decision.Discount?
    ensures decision.Respond? ==> decision.reply != NOT_UNDERSTOOD
    ensures decision.Respond? && decision.reply in {ASK_RANGE, ASK_PRECISION} <==>
              !AllAcceptable(explicit) && facts.requested.Some?
    ensures decision.Respond? && decision.reply in {ASK_RANGE, ASK_PRECISION} ==> Some(decision.reply) == FirstComplaint(explicit)
  {
    if !facts.mentioned {
      return if context then Respond(ASK_FOR_NUMBER) else Discount(ZERO);
    }
    if facts.requested.None? {
      return Respond(ASK_FOR_NUMBER);
    }
    var requested := facts.requested.value;
    var complaint := ValidateExplicitValues(explicit);
    if complaint.Some? {
      ComplaintKinds(explicit);
      return Respond(complaint.value);
    }
    var unique := Distinct(explicit);
    DistinctIsSingle(explicit, requested);
    if |unique| != 1 || !HasSame(unique, requested) {
      return Respond(ASK_FOR_NUMBER);
    }
    return Discount(requested);
  }

  lemma {:induction false} ComplaintKinds(values: seq<Decimal>)
    ensures FirstComplaint(values).Some? ==> FirstComplaint(values).value in {ASK_RANGE, ASK_PRECISION}
  {
    if values != [] {
      ComplaintKinds(values[1..]);
    }
  }

  // ---------- what the backend reads ----------

  /** points is a hundred times the decimal. */
  predicate IsHundredfold(d: Decimal, points: int) {
    100 * d.coefficient == points * Pow10(d.places)
  }

  lemma AcceptableHasPoints(d: Decimal) returns (points: nat)
    requires Complaint(d).None?
    ensures IsHundredfold(d, points) && points <= MAX_BASIS_POINTS
  {
    assert Pow10(1) == 10 && Pow10(2) == 100;
    points := d.coefficient * (if d.places == 0 then 100 else if d.places == 1 then 10 else 1);
  }

  lemma SameHundredfold(d: Decimal, e: Decimal, points: int)
    requires Same(d, e) && IsHundredfold(d, points)
    ensures IsHundredfold(e, points)
  {
    var p, q := Pow10(d.places), Pow10(e.places);
    calc {
      100 * e.coefficient * p;
      == 100 * (e.coefficient * p);
      == 100 * (d.coefficient * q);
      == (100 * d.coefficient) * q;
      == points * p * q;
      == points * q * p;
    }
    MulCancel(100 * e.coefficient, points * q, p);
  }

  predicate IsIntegral(d: Decimal) {
    d.coefficient % Pow10(d.places) == 0
  }

  lemma LargeMultiple(j: int, p: int)
    requires p > 0
    ensures j >= 1 ==> j * p >= p
    ensures j <= -1 ==> j * p <= -p
  {
  }

  lemma Distribute(k: int, q: int, p: int)
    ensures (k - q) * p == k * p - q * p
  {
  }

  lemma RemainderIsZero(n: int, p: int, k: int)
    requires p > 0 && n == k * p
    ensures n % p == 0 && n / p == k
  {
    Distribute(k, n / p, p);
    assert n == (n / p) * p + n % p;
    LargeMultiple(k - n / p, p);
  }

  /** The agent sends an int exactly when the points are whole percents, and then that many. */
  lemma IntegralIff(d: Decimal, points: nat)
    requires IsHundredfold(d, points)
    ensures IsIntegral(d) <==> points % 100 == 0
    ensures IsIntegral(d) ==> d.coefficient / Pow10(d.places) == points / 100
  {
    var p, c := Pow10(d.places), d.coefficient;
    if points % 100 == 0 {
      var k := points / 100;
      assert 100 * c == 100 * (k * p);
      RemainderIsZero(c, p, k);
    }
    if c % p == 0 {
      var k := c / p;
      assert c == k * p;
      assert (100 * k) * p == points * p;
      MulCancel(100 * k, points, p);
    }
  }

  /** An accepted discount is the single percentage of the text. It is within 0..100 with at most two decimals, and
      the texts in which it reaches the Go service, from the agent and echoed through the calculation, parse to
      exactly a hundred times it. */
  lemma DiscountReachesBackend(value: Decimal, explicit: seq<Decimal>) returns (points: nat)
    requires explicit != [] && AllSame(explicit, value) && AllAcceptable(explicit)
    ensures IsHundredfold(value, points) && points <= MAX_BASIS_POINTS
    ensures forall k :: 0 <= k < |explicit| ==> IsHundredfold(explicit[k], points)
    ensures IsIntegral(value) <==> points % 100 == 0
    ensures ParsePercent(JsonNumberText(points)) == Some(points)
    ensures ParsePercent(JsonFloatText(points)) == Some(points)
  {
    points := AcceptableHasPoints(explicit[0]);
    SameHundredfold(explicit[0], value, points);
    forall k | 0 <= k < |explicit|
      ensures IsHundredfold(explicit[k], points)
    {
      SameHundredfold(value, explicit[k], points);
    }
    IntegralIff(value, points);
    ForeignTextsParse(points);
  }
}
