/** The personality scoring of `calculateResult`: a tally of the chosen options' type
    tags, followed by a `reduce` that picks the dominant label. */
module Scoring {
  import opened Wrappers
  import opened QuizData

  /** One counter per label, as in the `personalityTypes` dictionary. */
  datatype Tally = Tally(explorer: nat, connector: nat, achiever: nat, innovator: nat)
  {
    function Count(l: Label): nat
    {
      match l
      case Explorer => explorer
      case Connector => connector
      case Achiever => achiever
      case Innovator => innovator
    }

    /** `personalityTypes[type]++` */
    function Bump(l: Label): Tally
    {
      match l
      case Explorer => this.(explorer := explorer + 1)
      case Connector => this.(connector := connector + 1)
      case Achiever => this.(achiever := achiever + 1)
      case Innovator => this.(innovator := innovator + 1)
    }

    function Total(): nat
    {
      explorer + connector + achiever + innovator
    }
  }

  const Zero := Tally(0, 0, 0, 0)

  /** Bumping a label adds one to its counter, leaves the others alone, and so adds
      one to the total. */
  lemma BumpCounts(t: Tally, l: Label)
    ensures t.Bump(l).Count(l) == t.Count(l) + 1
    ensures forall m :: m != l ==> t.Bump(l).Count(m) == t.Count(m)
    ensures t.Bump(l).Total() == t.Total() + 1
  {
  }

  /** Why the scoring loop throws: position `index` holds an answer but there is no
      question there, or the question has no option `answer`. */
  datatype ScoreError = NoSuchQuestion(index: nat) | NoSuchOption(index: nat, answer: nat)

  /** An answer at position `i` can be scored: it is a skip (`null`), or it names a
      real option of a real question. */
  predicate Fits(answer: Option<nat>, i: nat, questions: seq<Question>)
  {
    answer.None? || (i < |questions| && answer.value < |questions[i].options|)
  }

  /** Every answer can be scored, so the loop runs to the end. A skipped answer needs
      no question, so trailing skips beyond the last question are fine. */
  predicate Scorable(answers: seq<Option<nat>>, questions: seq<Question>)
  {
    ScorableUpTo(answers, questions, |answers|)
  }

  /** The answers before position `n` can be scored. */
  predicate ScorableUpTo(answers: seq<Option<nat>>, questions: seq<Question>, n: nat)
  {
    forall i :: 0 <= i < n && i < |answers| ==> Fits(answers[i], i, questions)
  }

  /** The type tag of the option chosen at position `i`. */
  function KindAt(answers: seq<Option<nat>>, questions: seq<Question>, i: nat): Label
    requires i < |answers| && answers[i].Some? && Fits(answers[i], i, questions)
  {
    questions[i].options[answers[i].value].kind
  }

  /** The tally after the `forEach` has visited the answers before position `n`. */
  function TallyUpTo(answers: seq<Option<nat>>, questions: seq<Question>, n: nat): Tally
    requires n <= |answers| && ScorableUpTo(answers, questions, n)
  {
    if n == 0 then Zero
    else
      var before := TallyUpTo(answers, questions, n - 1);
      if answers[n - 1].None? then before else before.Bump(KindAt(answers, questions, n - 1))
  }

  /** The tally after the `forEach` has visited every answer, in order. */
  function TallyOf(answers: seq<Option<nat>>, questions: seq<Question>): Tally
    requires Scorable(answers, questions)
  {
    TallyUpTo(answers, questions, |answers|)
  }

  /** The entries of the tally in the dictionary's insertion order. */
  function Entries(t: Tally): (s: seq<(Label, nat)>)
    ensures |s| == |Declared|
    ensures forall k :: 0 <= k < |s| ==> s[k] == (Declared[k], t.Count(Declared[k]))
  {
    [(Explorer, t.explorer), (Connector, t.connector), (Achiever, t.achiever), (Innovator, t.innovator)]
  }

  /** The reducer `(a, b) => a[1] > b[1] ? a : b`: the accumulator survives only when
      it is strictly greater. */
  function Pick(a: (Label, nat), b: (Label, nat)): (Label, nat)
  {
    if a.1 > b.1 then a else b
  }

  /** `Array.prototype.reduce` without an initial value: a left fold from the first
      entry. */
  function Reduce(s: seq<(Label, nat)>): (Label, nat)
    requires |s| > 0
    decreases |s|
  {
    if |s| == 1 then s[0] else Pick(Reduce(s[..|s| - 1]), s[|s| - 1])
  }

  /** The label `calculateResult` reports for a tally. */
  function Dominant(t: Tally): Label
  {
    Reduce(Entries(t)).0
  }

  /** The position of the entry the reduce returns. */
  function WinnerIndex(s: seq<(Label, nat)>): (k: nat)
    requires |s| > 0
    ensures k < |s|
    decreases |s|
  {
    if |s| == 1 then 0
    else
      var w := WinnerIndex(s[..|s| - 1]);
      if s[w].1 > s[|s| - 1].1 then w else |s| - 1
  }

  /** The reduce returns an entry whose count is maximal and beats every LATER entry
      strictly: the last entry reaching the maximum wins. */
  lemma {:induction false} ReduceIsLastMaximum(s: seq<(Label, nat)>)
    requires |s| > 0
    ensures var k := WinnerIndex(s);
            && Reduce(s) == s[k]
            && (forall j :: 0 <= j < |s| ==> s[j].1 <= s[k].1)
            && (forall j :: k < j < |s| ==> s[j].1 < s[k].1)
    decreases |s|
  {
    if |s| > 1 {
      var n := |s| - 1;
      var init := s[..n];
      ReduceIsLastMaximum(init);
      var w := WinnerIndex(init);
      assert forall j :: 0 <= j < n ==> s[j] == init[j];
      assert Reduce(s) == Pick(Reduce(init), s[n]);
    }
  }

  /** The dominant label has the greatest count, and every label declared after it
      has a strictly smaller count: on a tie the later-declared label wins. */
  lemma DominantIsLastMaximum(t: Tally)
    ensures forall l :: t.Count(l) <= t.Count(Dominant(t))
    ensures forall l :: Rank(l) > Rank(Dominant(t)) ==> t.Count(l) < t.Count(Dominant(t))
  {
    var s := Entries(t);
    ReduceIsLastMaximum(s);
    var k := WinnerIndex(s);
    assert Dominant(t) == Declared[k];
    assert Rank(Dominant(t)) == k;
    forall l ensures t.Count(l) <= t.Count(Dominant(t)) {
      assert s[Rank(l)].1 == t.Count(l);
    }
    forall l | Rank(l) > Rank(Dominant(t)) ensures t.Count(l) < t.Count(Dominant(t)) {
      assert s[Rank(l)].1 == t.Count(l);
    }
  }

  /** An independent statement of the tie-break: scan the labels from the last
      declared to the first and take the first one that reaches the maximum. */
  function LastMaximum(t: Tally): Label
  {
    var m := Max(Max(t.explorer, t.connector), Max(t.achiever, t.innovator));
    if t.innovator == m then Innovator
    else if t.achiever == m then Achiever
    else if t.connector == m then Connector
    else Explorer
  }

  function Max(a: nat, b: nat): nat
  {
    if a < b then b else a
  }

  lemma DominantIsLastMaximumLabel(t: Tally)
    ensures Dominant(t) == LastMaximum(t)
  {
    DominantIsLastMaximum(t);
    var d := Dominant(t);
    assert t.Count(Explorer) <= t.Count(d) && t.Count(Connector) <= t.Count(d);
    assert t.Count(Achiever) <= t.Count(d) && t.Count(Innovator) <= t.Count(d);
    assert Rank(Connector) > Rank(d) ==> t.Count(Connector) < t.Count(d);
    assert Rank(Achiever) > Rank(d) ==> t.Count(Achiever) < t.Count(d);
    assert Rank(Innovator) > Rank(d) ==> t.Count(Innovator) < t.Count(d);
  }

  /** Two tie cases: one vote each for Explorer and Connector gives Connector, and a
      tally of zeros (every question skipped) gives Innovator. */
  lemma TieExamples()
    ensures Dominant(Tally(1, 1, 0, 0)) == Connector
    ensures Dominant(Zero) == Innovator
  {
    DominantIsLastMaximumLabel(Tally(1, 1, 0, 0));
    DominantIsLastMaximumLabel(Zero);
  }

  /** Position `i` holds an answer whose option carries label `l`. */
  predicate Picks(answer: Option<nat>, i: nat, questions: seq<Question>, l: Label)
  {
    answer.Some? && Fits(answer, i, questions) && questions[i].options[answer.value].kind == l
  }

  /** The positions before `n` whose chosen option carries label `l`. */
  ghost function PositionsUpTo(answers: seq<Option<nat>>, questions: seq<Question>, l: Label, n: nat): set<nat>
  {
    set i: nat | i < n && i < |answers| && Picks(answers[i], i, questions, l)
  }

  /** The positions whose chosen option carries label `l`. */
  ghost function PositionsOf(answers: seq<Option<nat>>, questions: seq<Question>, l: Label): set<nat>
  {
    PositionsUpTo(answers, questions, l, |answers|)
  }

  /** The positions before `n` that hold an answer rather than a skip. */
  ghost function AnsweredUpTo(answers: seq<Option<nat>>, n: nat): set<nat>
  {
    set i: nat | i < n && i < |answers| && answers[i].Some?
  }

  /** The positions that hold an answer rather than a skip. */
  ghost function AnsweredPositions(answers: seq<Option<nat>>): set<nat>
  {
    AnsweredUpTo(answers, |answers|)
  }

  /** One step adds position `n` to the positions of its option's label, if any. */
  lemma PositionsUpToStep(answers: seq<Option<nat>>, questions: seq<Question>, l: Label, n: nat)
    requires n < |answers|
    ensures n !in PositionsUpTo(answers, questions, l, n)
    ensures PositionsUpTo(answers, questions, l, n + 1)
            == PositionsUpTo(answers, questions, l, n) + (if Picks(answers[n], n, questions, l) then {n} else {})
  {
  }

  /** One step adds position `n` to the answered positions when it is not a skip. */
  lemma AnsweredUpToStep(answers: seq<Option<nat>>, n: nat)
    requires n < |answers|
    ensures n !in AnsweredUpTo(answers, n)
    ensures AnsweredUpTo(answers, n + 1) == AnsweredUpTo(answers, n) + (if answers[n].Some? then {n} else {})
  {
  }

  /** Each counter after `n` steps is the number of positions before `n` whose chosen
      option has that type. */
  lemma {:induction false} TallyUpToCountsPositions(answers: seq<Option<nat>>, questions: seq<Question>, l: Label, n: nat)
    requires n <= |answers| && ScorableUpTo(answers, questions, n)
    ensures TallyUpTo(answers, questions, n).Count(l) == |PositionsUpTo(answers, questions, l, n)|
  {
    if n == 0 {
      assert PositionsUpTo(answers, questions, l, n) == {};
    } else {
      TallyUpToCountsPositions(answers, questions, l, n - 1);
      PositionsUpToStep(answers, questions, l, n - 1);
      if answers[n - 1].Some? {
        BumpCounts(TallyUpTo(answers, questions, n - 1), KindAt(answers, questions, n - 1));
      }
    }
  }

  /** After `n` steps the counters add up to the answered positions before `n`. */
  lemma {:induction false} TallyUpToTotal(answers: seq<Option<nat>>, questions: seq<Question>, n: nat)
    requires n <= |answers| && ScorableUpTo(answers, questions, n)
    ensures TallyUpTo(answers, questions, n).Total() == |AnsweredUpTo(answers, n)|
  {
    if n == 0 {
      assert AnsweredUpTo(answers, n) == {};
    } else {
      TallyUpToTotal(answers, questions, n - 1);
      AnsweredUpToStep(answers, n - 1);
      if answers[n - 1].Some? {
        BumpCounts(TallyUpTo(answers, questions, n - 1), KindAt(answers, questions, n - 1));
      }
    }
  }

  /** Each label's counter is the number of positions whose chosen option has that
      type; skips are counted nowhere. */
  lemma TallyCountsPositions(answers: seq<Option<nat>>, questions: seq<Question>, l: Label)
    requires Scorable(answers, questions)
    ensures TallyOf(answers, questions).Count(l) == |PositionsOf(answers, questions, l)|
  {
    TallyUpToCountsPositions(answers, questions, l, |answers|);
  }

  /** The counters add up to the number of answered (non-skipped) positions. */
  lemma TallyTotalIsAnswered(answers: seq<Option<nat>>, questions: seq<Question>)
    requires Scorable(answers, questions)
    ensures TallyOf(answers, questions).Total() == |AnsweredPositions(answers)|
  {
    TallyUpToTotal(answers, questions, |answers|);
  }

  /** The answer at position `i` contributes exactly one vote, to its own option's
      type: turning it into a skip takes one from that counter and none from the
      others. */
  lemma AnswerAddsOneVote(answers: seq<Option<nat>>, questions: seq<Question>, i: nat)
    requires Scorable(answers, questions)
    requires i < |answers| && answers[i].Some?
    ensures Scorable(answers[i := None], questions)
    ensures forall l :: TallyOf(answers, questions).Count(l)
                        == TallyOf(answers[i := None], questions).Count(l)
                           + (if l == KindAt(answers, questions, i) then 1 else 0)
  {
    var skipped := answers[i := None];
    assert Scorable(skipped, questions) by {
      forall j | 0 <= j < |skipped| ensures Fits(skipped[j], j, questions) {
        assert j != i ==> skipped[j] == answers[j];
      }
    }
    forall l
      ensures TallyOf(answers, questions).Count(l)
              == TallyOf(skipped, questions).Count(l) + (if l == KindAt(answers, questions, i) then 1 else 0)
    {
      TallyCountsPositions(answers, questions, l);
      TallyCountsPositions(skipped, questions, l);
      PositionsOfSkip(answers, questions, i, l);
    }
  }

  /** Skipping position `i` removes `i`, and only `i`, from the positions of its label. */
  lemma PositionsOfSkip(answers: seq<Option<nat>>, questions: seq<Question>, i: nat, l: Label)
    requires i < |answers| && answers[i].Some? && Fits(answers[i], i, questions)
    ensures PositionsOf(answers, questions, l)
            == PositionsOf(answers[i := None], questions, l)
               + (if questions[i].options[answers[i].value].kind == l then {i} else {})
    ensures i !in PositionsOf(answers[i := None], questions, l)
  {
    var skipped := answers[i := None];
    var extra: set<nat> := if questions[i].options[answers[i].value].kind == l then {i} else {};
    forall j: nat
      ensures j in PositionsOf(answers, questions, l) <==> j in PositionsOf(skipped, questions, l) + extra
    {
      if j < |answers| && j != i {
        assert skipped[j] == answers[j];
      }
    }
  }

  /** Answers that are all skips leave every counter at zero, so the result is the
      last declared label, Innovator. */
  lemma AllSkippedGivesInnovator(answers: seq<Option<nat>>, questions: seq<Question>)
    requires forall i :: 0 <= i < |answers| ==> answers[i].None?
    ensures Scorable(answers, questions)
    ensures TallyOf(answers, questions) == Zero
    ensures Dominant(TallyOf(answers, questions)) == Innovator
  {
    assert Scorable(answers, questions) by {
      forall i | 0 <= i < |answers| ensures Fits(answers[i], i, questions) { }
    }
    TallyTotalIsAnswered(answers, questions);
    var none := AnsweredPositions(answers);
    assert none == {} by {
      forall i: nat | i in none ensures false { }
    }
    var t := TallyOf(answers, questions);
    assert t.explorer == 0 && t.connector == 0 && t.achiever == 0 && t.innovator == 0;
    TieExamples();
  }

  /** The first position at which the scoring loop throws, with the error it
      raises there. */
  predicate FirstFault(answers: seq<Option<nat>>, questions: seq<Question>, e: ScoreError)
    ensures FirstFault(answers, questions, e) ==> !Scorable(answers, questions)
  {
    && e.index < |answers| && answers[e.index].Some?
    && !Fits(answers[e.index], e.index, questions)
    && ScorableUpTo(answers, questions, e.index)
    && (e.NoSuchQuestion? <==> e.index >= |questions|)
    && (e.NoSuchOption? ==> e.answer == answers[e.index].value)
  }

  /** The loop stops at the first answer that does not fit, with the matching error. */
  lemma FaultIsFirst(answers: seq<Option<nat>>, questions: seq<Question>, e: ScoreError)
    requires e.index < |answers| && answers[e.index].Some?
    requires ScorableUpTo(answers, questions, e.index)
    requires e.NoSuchQuestion? ==> e.index >= |questions|
    requires e.NoSuchOption? ==> e.index < |questions| && e.answer == answers[e.index].value
                                 && e.answer >= |questions[e.index].options|
    ensures FirstFault(answers, questions, e) && !Scorable(answers, questions)
  {
  }

  /** `calculateResult`: the `forEach` that bumps one counter per non-skipped answer,
      then the `reduce`. A missing question or option makes the JavaScript throw a
      `TypeError` at the first such position; that is the `Failure` here. */
  method CalculateResult(answersArr: seq<Option<nat>>, questions: seq<Question>)
    returns (r: Result<Label, ScoreError>)
    ensures r.Success? <==> Scorable(answersArr, questions)
    ensures r.Success? ==> r.value == Dominant(TallyOf(answersArr, questions))
    ensures r.Failure? ==> FirstFault(answersArr, questions, r.error)
  {
    var personalityTypes := Zero;
    var i := 0;
    while i < |answersArr|
      invariant 0 <= i <= |answersArr|
      invariant ScorableUpTo(answersArr, questions, i)
      invariant personalityTypes == TallyUpTo(answersArr, questions, i)
    {
      var answer := answersArr[i];
      if answer.Some? {
        if i >= |questions| {
          r := Failure(NoSuchQuestion(i));
          FaultIsFirst(answersArr, questions, r.error);
          return;
        }
        var option := answer.value;
        if option >= |questions[i].options| {
          r := Failure(NoSuchOption(i, option));
          FaultIsFirst(answersArr, questions, r.error);
          return;
        }
        personalityTypes := personalityTypes.Bump(questions[i].options[option].kind);
      }
      i := i + 1;
    }
    return Success(Dominant(personalityTypes));
  }
}
