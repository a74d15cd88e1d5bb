/**
 * The quiz endpoint: reading its parameters, and assembling up to ten
 * multiple-choice questions from a pool of yachts drawn without replacement.
 *
 * The database query and the builder lookup are inputs. Every `Math.random()`
 * call is the next entry of an oracle `rand`, reduced into range; the option
 * shuffle `sort(() => Math.random() - 0.5)` is an oracle `shuffle` that may
 * return any permutation.
 */
module QuizApi {
  import opened Wrappers
  import opened QueryString

  /** The requested quiz type. The source casts the text without checking it, so any other text is kept. */
  datatype QuizType = Name | Builder | Mixed | Unrecognised(raw: string)

  /** The text of a quiz type, as it appears in the query. */
  function TypeText(t: QuizType): string {
    match t
    case Name => "name"
    case Builder => "builder"
    case Mixed => "mixed"
    case Unrecognised(raw) => raw
  }

  /** `searchParams.get('type') as QuizType || 'name'`. */
  function ParseQuizType(q: Query): (t: QuizType)
    ensures TypeText(t) == GetOr(q, "type", "name")
    ensures ("type" !in q || q["type"] == "") ==> t == Name
  {
    match GetOr(q, "type", "name")
    case "name" => Name
    case "builder" => Builder
    case "mixed" => Mixed
    case other => Unrecognised(other)
  }

  /** A length filter on the yacht query: none, or a bound `parseInt(text, 10)` (the oracle; `None` is `NaN`). */
  datatype LengthFilter = Unfiltered | Bound(value: Option<int>)

  /** The parameters the endpoint reads: the type and the two length filters of the yacht query. */
  datatype QuizRequest = QuizRequest(quizType: QuizType, minFilter: LengthFilter, maxFilter: LengthFilter)

  /** `get(key) || null`. */
  function NonEmptyParam(q: Query, key: string): (r: Option<string>)
    ensures r.Some? <==> key in q && q[key] != ""
    ensures r.Some? ==> r.value == q[key]
  {
    if key in q && q[key] != "" then Some(q[key]) else None
  }

  /** `if (minLength) query = query.gte(..., parseInt(minLength, 10))`: the bound is applied whenever the text is non-empty, even when it does not parse. */
  function FilterFor(raw: Option<string>, parseInt: string -> Option<int>): (f: LengthFilter)
    ensures f.Bound? <==> raw.Some?
    ensures f.Bound? ==> f.value == parseInt(raw.value)
  {
    if raw.Some? then Bound(parseInt(raw.value)) else Unfiltered
  }

  function ParseRequest(q: Query, parseInt: string -> Option<int>): (r: QuizRequest)
    ensures r.quizType == ParseQuizType(q)
    ensures r.minFilter.Bound? <==> "minLength" in q && q["minLength"] != ""
    ensures r.minFilter.Bound? ==> r.minFilter.value == parseInt(q["minLength"])
    ensures r.maxFilter.Bound? <==> "maxLength" in q && q["maxLength"] != ""
    ensures r.maxFilter.Bound? ==> r.maxFilter.value == parseInt(q["maxLength"])
  {
    var minLength := NonEmptyParam(q, "minLength");
    var maxLength := NonEmptyParam(q, "maxLength");
    QuizRequest(ParseQuizType(q), FilterFor(minLength, parseInt), FilterFor(maxLength, parseInt))
  }

  /** Reading a quiz type back from its text gives the same text. */
  lemma QuizTypeRoundTrip(t: QuizType)
    requires t.Unrecognised? ==> t.raw !in {"", "name", "builder", "mixed"}
    ensures ParseQuizType(map["type" := TypeText(t)]) == t
  {
  }

  /** The fields of a yacht row the generator uses. */
  datatype Yacht = Yacht(id: string, name: string, builder: string, pictures: seq<string>)

  datatype QuestionType = NameQuestion | BuilderQuestion

  /** A question: the yacht pictured, its options and the right one. */
  datatype QuizQuestion = QuizQuestion(yacht: Yacht, options: seq<string>, correctAnswer: string, questionType: QuestionType)

  /** The thrown errors; both become status 500. */
  datatype QuizError = NotEnoughYachts | NoQuestions

  /** One pass of the generation loop: its type, the four yachts drawn and the question, if one was emitted. */
  datatype Round = Round(kind: QuizType, drawn: seq<Yacht>, question: Option<QuizQuestion>)

  function Names(ys: seq<Yacht>): (names: seq<string>)
    ensures |names| == |ys| && forall i :: 0 <= i < |ys| ==> names[i] == ys[i].name
  {
    seq(|ys|, i requires 0 <= i < |ys| => ys[i].name)
  }

  /** `allBuilders.filter(b => b !== correctAnswer)`: every other builder, each as often as listed. */
  function WrongBuilders(all: seq<string>, correct: string): (r: seq<string>)
    ensures multiset(r)[correct] == 0
    ensures forall b :: b != correct ==> multiset(r)[b] == multiset(all)[b]
  {
    if all == [] then []
    else
      assert all == [all[0]] + all[1..];
      (if all[0] != correct then [all[0]] else []) + WrongBuilders(all[1..], correct)
  }

  /** The builder list is fetched only for builder and mixed quizzes. */
  function BuildersFor(quizType: QuizType, fetched: seq<string>): (builders: seq<string>)
    ensures quizType == Builder || quizType == Mixed ==> builders == fetched
    ensures !(quizType == Builder || quizType == Mixed) ==> builders == []
  {
    if quizType == Builder || quizType == Mixed then fetched else []
  }

  /** A round's question exists exactly when the correct yacht has a name and, for a builder question, a builder and three other builders to pick from. */
  predicate Emits(kind: QuizType, drawn: seq<Yacht>, allBuilders: seq<string>)
    requires |drawn| > 0
  {
    drawn[0].name != "" &&
    (kind == Name || (kind == Builder && drawn[0].builder != "" && |WrongBuilders(allBuilders, drawn[0].builder)| >= 3))
  }

  /** A name question: the options are the four drawn names in some order, and the answer is the first drawn yacht's name. */
  predicate NameQuestionOk(q: QuizQuestion, drawn: seq<Yacht>)
    requires |drawn| > 0
  {
    q.yacht == drawn[0] && q.questionType == NameQuestion &&
    q.correctAnswer == drawn[0].name && multiset(q.options) == multiset(Names(drawn))
  }

  /** A builder question: four options, the right builder exactly once, and the others drawn without replacement from the other builders. */
  predicate BuilderQuestionOk(q: QuizQuestion, drawn: seq<Yacht>, allBuilders: seq<string>)
    requires |drawn| > 0
  {
    q.yacht == drawn[0] && q.questionType == BuilderQuestion &&
    q.correctAnswer == drawn[0].builder && |q.options| == 4 &&
    multiset(q.options)[q.correctAnswer] == 1 &&
    multiset(q.options) - multiset{q.correctAnswer} <= multiset(WrongBuilders(allBuilders, q.correctAnswer))
  }

  predicate RoundOk(round: Round, requested: QuizType, allBuilders: seq<string>) {
    |round.drawn| == 4 &&
    (requested != Mixed ==> round.kind == requested) &&
    (requested == Mixed ==> round.kind == Name || round.kind == Builder) &&
    (round.question.Some? <==> Emits(round.kind, round.drawn, allBuilders)) &&
    (round.question.Some? && round.kind == Name ==> NameQuestionOk(round.question.value, round.drawn)) &&
    (round.question.Some? && round.kind == Builder ==> BuilderQuestionOk(round.question.value, round.drawn, allBuilders))
  }

  /** Every yacht drawn, round after round. */
  function Drawn(rounds: seq<Round>): seq<Yacht> {
    if rounds == [] then [] else Drawn(rounds[..|rounds| - 1]) + rounds[|rounds| - 1].drawn
  }

  /** The questions pushed, round after round. */
  function Emitted(rounds: seq<Round>): (qs: seq<QuizQuestion>)
    ensures |qs| <= |rounds|
  {
    if rounds == [] then []
    else
      var last := rounds[|rounds| - 1];
      Emitted(rounds[..|rounds| - 1]) + (if last.question.Some? then [last.question.value] else [])
  }

  lemma SpliceMultiset<T>(s: seq<T>, i: nat)
    requires i < |s|
    ensures multiset(s[..i] + s[i + 1..]) + multiset{s[i]} == multiset(s)
  {
    assert s == s[..i] + [s[i]] + s[i + 1..];
  }

  /** The inner loop: four `splice`s of a random index out of the pool. */
  method DrawFour(pool: seq<Yacht>, rand: nat -> nat, k0: nat) returns (drawn: seq<Yacht>, rest: seq<Yacht>, k: nat)
    requires |pool| >= 4
    ensures |drawn| == 4 && |rest| == |pool| - 4
    ensures multiset(drawn) + multiset(rest) == multiset(pool)
    ensures k == k0 + 4
  {
    drawn, rest, k := [], pool, k0;
    for j := 0 to 4
      invariant |drawn| == j && |rest| == |pool| - j
      invariant multiset(drawn) + multiset(rest) == multiset(pool)
      invariant k == k0 + j
    {
      var randomIndex := rand(k) % |rest|;
      k := k + 1;
      SpliceMultiset(rest, randomIndex);
      drawn := drawn + [rest[randomIndex]];
      rest := rest[..randomIndex] + rest[randomIndex + 1..];
    }
  }

  /** The builder options loop: the right builder, then random other builders spliced out until there are four or none are left. */
  method BuilderOptions(correct: string, allBuilders: seq<string>, rand: nat -> nat, k0: nat) returns (options: seq<string>, k: nat)
    ensures |options| >= 1 && options[0] == correct
    ensures |options| == if 1 + |WrongBuilders(allBuilders, correct)| < 4 then 1 + |WrongBuilders(allBuilders, correct)| else 4
    ensures multiset(options[1..]) <= multiset(WrongBuilders(allBuilders, correct))
    ensures multiset(options)[correct] == 1
    ensures k == k0 + |options| - 1
  {
    var wrong := WrongBuilders(allBuilders, correct);
    ghost var allWrong := wrong;
    options, k := [correct], k0;
    while |options| < 4 && |wrong| > 0
      invariant 1 <= |options| <= 4 && options[0] == correct
      invariant |options| - 1 + |wrong| == |allWrong|
      invariant multiset(options[1..]) + multiset(wrong) == multiset(allWrong)
      invariant k == k0 + |options| - 1
    {
      var randomIndex := rand(k) % |wrong|;
      k := k + 1;
      SpliceMultiset(wrong, randomIndex);
      assert (options + [wrong[randomIndex]])[1..] == options[1..] + [wrong[randomIndex]];
      options := options + [wrong[randomIndex]];
      wrong := wrong[..randomIndex] + wrong[randomIndex + 1..];
    }
    assert multiset(options[1..])[correct] == 0 by {
      assert multiset(options[1..])[correct] <= multiset(allWrong)[correct];
    }
    assert options == [correct] + options[1..];
  }

  /** The body of one round after the draw: the question built from the four drawn yachts, if any. */
  method BuildQuestion(kind: QuizType, questionYachts: seq<Yacht>, allBuilders: seq<string>,
                       rand: nat -> nat, shuffle: (seq<string>, nat) -> seq<string>, round: nat, k0: nat)
      returns (question: Option<QuizQuestion>, k: nat)
    requires forall s: seq<string>, i: nat :: multiset(shuffle(s, i)) == multiset(s)
    requires |questionYachts| == 4
    ensures question.Some? <==> Emits(kind, questionYachts, allBuilders)
    ensures question.Some? && kind == Name ==> NameQuestionOk(question.value, questionYachts)
    ensures question.Some? && kind == Builder ==> BuilderQuestionOk(question.value, questionYachts, allBuilders)
  {
    var correctYacht := questionYachts[0];
    question, k := None, k0;
    if correctYacht.name != "" {
      if kind == Name {
        var options := Names(questionYachts);
        question := Some(QuizQuestion(correctYacht, shuffle(options, round), correctYacht.name, NameQuestion));
      } else if kind == Builder && correctYacht.builder != "" {
        var options;
        options, k := BuilderOptions(correctYacht.builder, allBuilders, rand, k);
        if |options| == 4 {
          var shuffled := shuffle(options, round);
          assert multiset(shuffled) == multiset(options);
          assert multiset(shuffled) - multiset{correctYacht.builder} == multiset(options[1..]) by {
            assert options == [correctYacht.builder] + options[1..];
          }
          question := Some(QuizQuestion(correctYacht, shuffled, correctYacht.builder, BuilderQuestion));
        }
      }
    }
  }

  /** One round after the type is chosen: draw four yachts out of the pool and build the question. */
  method PlayRound(requested: QuizType, kind: QuizType, yachtPool: seq<Yacht>, allBuilders: seq<string>,
                   rand: nat -> nat, shuffle: (seq<string>, nat) -> seq<string>, i: nat, k0: nat)
      returns (round: Round, rest: seq<Yacht>, k: nat)
    requires forall s: seq<string>, i: nat :: multiset(shuffle(s, i)) == multiset(s)
    requires |yachtPool| >= 4
    requires requested != Mixed ==> kind == requested
    requires requested == Mixed ==> kind == Name || kind == Builder
    ensures RoundOk(round, requested, allBuilders)
    ensures |rest| == |yachtPool| - 4
    ensures multiset(round.drawn) + multiset(rest) == multiset(yachtPool)
  {
    var questionYachts, question;
    questionYachts, rest, k := DrawFour(yachtPool, rand, k0);
    question, k := BuildQuestion(kind, questionYachts, allBuilders, rand, shuffle, i, k);
    round := Round(kind, questionYachts, question);
  }

  lemma DrawnSnoc(rounds: seq<Round>, round: Round)
    ensures multiset(Drawn(rounds + [round])) == multiset(Drawn(rounds)) + multiset(round.drawn)
  {
    assert (rounds + [round])[..|rounds|] == rounds;
  }

  lemma EmittedSnoc(rounds: seq<Round>, round: Round)
    ensures Emitted(rounds + [round]) == Emitted(rounds) + (if round.question.Some? then [round.question.value] else [])
  {
    assert (rounds + [round])[..|rounds|] == rounds;
  }

  /**
   * The generation loop. With fewer than four yachts the request fails at
   * once. Otherwise there are `min(10, |yachts| / 4)` rounds, each drawing four
   * yachts no earlier round drew, and the request fails only when no round
   * emitted a question.
   */
  method GenerateQuiz(quizType: QuizType, yachts: seq<Yacht>, fetchedBuilders: seq<string>,
                      rand: nat -> nat, shuffle: (seq<string>, nat) -> seq<string>)
      returns (result: Result<seq<QuizQuestion>, QuizError>, rounds: seq<Round>)
    requires forall s: seq<string>, i: nat :: multiset(shuffle(s, i)) == multiset(s)
    ensures |yachts| < 4 ==> result == Err(NotEnoughYachts) && rounds == []
    ensures |yachts| >= 4 ==> |rounds| == if |yachts| / 4 < 10 then |yachts| / 4 else 10
    ensures forall r :: 0 <= r < |rounds| ==> RoundOk(rounds[r], quizType, BuildersFor(quizType, fetchedBuilders))
    ensures multiset(Drawn(rounds)) <= multiset(yachts)
    ensures |yachts| >= 4 ==> (result.Ok? <==> Emitted(rounds) != [])
    ensures result.Ok? ==> result.value == Emitted(rounds)
    ensures |yachts| >= 4 && result.Err? ==> result.error == NoQuestions
  {
    if |yachts| < 4 {
      return Err(NotEnoughYachts), [];
    }
    var allBuilders := BuildersFor(quizType, fetchedBuilders);
    var questions: seq<QuizQuestion> := [];
    var yachtPool := yachts;
    var k: nat := 0;
    rounds := [];
    var i := 0;
    while i < 10
      invariant 0 <= i <= 10 && |rounds| == i
      invariant |yachtPool| == |yachts| - 4 * i
      invariant multiset(Drawn(rounds)) + multiset(yachtPool) == multiset(yachts)
      invariant forall r :: 0 <= r < |rounds| ==> RoundOk(rounds[r], quizType, allBuilders)
      invariant questions == Emitted(rounds)
    {
      var currentQuizType := quizType;
      if quizType == Mixed {
        currentQuizType := if rand(k) % 2 == 0 then Name else Builder;
        k := k + 1;
      }
      if |yachtPool| < 4 {
        break;
      }
      var round;
      round, yachtPool, k := PlayRound(quizType, currentQuizType, yachtPool, allBuilders, rand, shuffle, i, k);
      DrawnSnoc(rounds, round);
      EmittedSnoc(rounds, round);
      rounds := rounds + [round];
      if round.question.Some? {
        questions := questions + [round.question.value];
      }
      i := i + 1;
    }
    if |questions| == 0 {
      result := Err(NoQuestions);
    } else {
      result := Ok(questions);
    }
  }

  /** What every emitted question offers: four options, one of which is the correct answer, of the type the round chose. */
  lemma {:induction false} EmittedQuestionsWellFormed(rounds: seq<Round>, requested: QuizType, allBuilders: seq<string>)
    requires forall r :: 0 <= r < |rounds| ==> RoundOk(rounds[r], requested, allBuilders)
    ensures forall q :: q in Emitted(rounds) ==>
      && |q.options| == 4
      && q.correctAnswer in q.options
      && (requested == Name ==> q.questionType == NameQuestion)
      && (requested == Builder ==> q.questionType == BuilderQuestion)
    ensures (requested.Unrecognised? ==> Emitted(rounds) == [])
  {
    if rounds != [] {
      var init, last := rounds[..|rounds| - 1], rounds[|rounds| - 1];
      assert forall r :: 0 <= r < |init| ==> init[r] == rounds[r];
      EmittedQuestionsWellFormed(init, requested, allBuilders);
      if last.question.Some? {
        var q := last.question.value;
        assert RoundOk(last, requested, allBuilders);
        if last.kind == Name {
          assert multiset(q.options) == multiset(Names(last.drawn));
          assert |q.options| == |multiset(q.options)| == |Names(last.drawn)|;
          assert Names(last.drawn)[0] == q.correctAnswer;
          assert q.correctAnswer in multiset(Names(last.drawn));
        } else {
          assert last.kind == Builder;
          assert q.correctAnswer in multiset(q.options);
        }
      }
    }
  }

  /** No emitted question count can exceed ten. */
  lemma AtMostTenQuestions(rounds: seq<Round>)
    requires |rounds| <= 10
    ensures |Emitted(rounds)| <= 10
  {
  }

  predicate Distinct(s: seq<Yacht>) {
    forall i, j :: 0 <= i < j < |s| ==> s[i] != s[j]
  }

  lemma {:induction false} DistinctAtMostOnce(s: seq<Yacht>, x: Yacht)
    requires Distinct(s)
    ensures multiset(s)[x] <= 1
  {
    if s != [] {
      assert s == [s[0]] + s[1..];
      assert Distinct(s[1..]) by {
        forall i, j | 0 <= i < j < |s[1..]| ensures s[1..][i] != s[1..][j] {
          assert s[1..][i] == s[i + 1] && s[1..][j] == s[j + 1];
        }
      }
      DistinctAtMostOnce(s[1..], x);
      if s[0] == x {
        assert x !in s[1..] by {
          forall j | 0 <= j < |s[1..]| ensures s[1..][j] != x { assert s[1..][j] == s[j + 1]; }
        }
      }
    }
  }

  lemma {:induction false} DrawnIncludesRound(rounds: seq<Round>, a: nat)
    requires a < |rounds|
    ensures multiset(rounds[a].drawn) <= multiset(Drawn(rounds))
  {
    var init := rounds[..|rounds| - 1];
    if a < |rounds| - 1 {
      DrawnIncludesRound(init, a);
      assert init[a] == rounds[a];
    }
  }

  lemma {:induction false} DrawnIncludesTwoRounds(rounds: seq<Round>, a: nat, b: nat)
    requires a < b < |rounds|
    ensures multiset(rounds[a].drawn) + multiset(rounds[b].drawn) <= multiset(Drawn(rounds))
  {
    var init := rounds[..|rounds| - 1];
    assert init[a] == rounds[a];
    if b == |rounds| - 1 {
      DrawnIncludesRound(init, a);
    } else {
      DrawnIncludesTwoRounds(init, a, b);
      assert init[b] == rounds[b];
    }
  }

  /** When the pool holds distinct rows, no yacht is drawn by two rounds, so none backs two questions. */
  lemma NoYachtInTwoRounds(yachts: seq<Yacht>, rounds: seq<Round>)
    requires Distinct(yachts)
    requires multiset(Drawn(rounds)) <= multiset(yachts)
    ensures forall a, b, y :: 0 <= a < b < |rounds| && y in rounds[a].drawn ==> y !in rounds[b].drawn
  {
    forall a, b, y | 0 <= a < b < |rounds| && y in rounds[a].drawn
      ensures y !in rounds[b].drawn
    {
      if y in rounds[b].drawn {
        DrawnIncludesTwoRounds(rounds, a, b);
        DistinctAtMostOnce(yachts, y);
      }
    }
  }
}
