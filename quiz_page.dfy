/**
 * The quiz page: category filtering of the word list, the category list,
 * question and distractor generation, answer checking and the prompt.
 *
 * Every `Math.random()` of the page is an injected value: `pick` chooses the
 * correct entry, `draws` feeds the distractor loop one draw per iteration and
 * `order` drives the random-comparator sort of the options.
 */
module QuizPage {
  import opened Vocab

  /** The quiz type radio; its value names the column of the correct entry that is the answer. */
  datatype QuizType = Hanzi | Pinyin | English

  /** The value of the quiz type radio, which is also the name of the column it asks for. */
  function TypeName(t: QuizType): string {
    match t
    case Hanzi => "Hanzi"
    case Pinyin => "Pinyin"
    case English => "English"
  }

  /** `entry[quizType]` */
  function Answer(e: Entry, t: QuizType): string {
    match t
    case Hanzi => e.Hanzi
    case Pinyin => e.Pinyin
    case English => e.English
  }

  /** The answer is the entry's property named by the radio's value, and never its category. */
  lemma AnswerIsNamedColumn(e: Entry, t: QuizType)
    ensures Field(e, TypeName(t)) == Some(Answer(e, t))
    ensures TypeName(t) != "Category"
  {
  }

  /** The column shown as the prompt in each quiz type. */
  function PromptType(t: QuizType): (p: QuizType)
    ensures p != t
  {
    match t
    case Hanzi => English
    case Pinyin => Hanzi
    case English => Pinyin
  }

  /** Every answer column is the prompt column of exactly one quiz type: the three types form a cycle. */
  lemma PromptTypeIsCycle(t: QuizType)
    ensures PromptType(PromptType(PromptType(t))) == t
    ensures forall u :: PromptType(u) == PromptType(t) ==> u == t
  {
  }

  /** getQuestionPrompt: the empty string without a question, else the prompt column of the current entry. */
  function QuestionPrompt(current: Option<Entry>, t: QuizType): (r: string)
    ensures current.None? ==> r == ""
    ensures current.Some? ==> r == Answer(current.value, PromptType(t))
  {
    match current
    case None => ""
    case Some(e) =>
      if t == Hanzi then e.English
      else if t == Pinyin then e.Hanzi
      else e.Pinyin
  }

  /** The pseudo-category that stands for "no filtering". */
  const All := "All"

  /** filterQuestionsByCategories: nothing for an empty selection, else the entries in a selected category. */
  function FilterQuestionsByCategories(allData: seq<Entry>, selectedCats: seq<string>): seq<Entry> {
    if |selectedCats| == 0 then [] else FilterIn(allData, selectedCats)
  }

  /** The special case for an empty selection agrees with the filter itself. */
  lemma FilterQuestionsIsFilter(allData: seq<Entry>, selectedCats: seq<string>)
    ensures FilterQuestionsByCategories(allData, selectedCats) == FilterIn(allData, selectedCats)
    ensures selectedCats == [] ==> FilterQuestionsByCategories(allData, selectedCats) == []
  {
    FilterInNone(allData);
  }

  /** The question list the category-filter effect installs for a selection. */
  function ActiveQuestions(allData: seq<Entry>, selected: seq<string>): seq<Entry> {
    if All in selected then allData else FilterIn(allData, selected)
  }

  /** With "All" selected the questions are the whole data; otherwise exactly the selected categories' entries; always in the data's order. */
  lemma ActiveQuestionsSelects(allData: seq<Entry>, selected: seq<string>)
    ensures All in selected ==> ActiveQuestions(allData, selected) == allData
    ensures All !in selected ==> forall e :: e in ActiveQuestions(allData, selected) <==> e in allData && e.Category in selected
    ensures IsSubsequence(ActiveQuestions(allData, selected), allData)
  {
    if All in selected {
      SubsequenceRefl(allData);
    } else {
      FilterInMembers(allData, selected);
      FilterInSubsequence(allData, selected);
    }
  }

  /** Every sequence is a subsequence of itself. */
  lemma {:induction false} SubsequenceRefl(s: seq<Entry>)
    ensures IsSubsequence(s, s)
  {
    if s != [] {
      SubsequenceRefl(s[1..]);
    }
  }

  /** The category list: "All", then each category of the data once, in order of first occurrence. */
  function QuizCategories(data: seq<Entry>): seq<string> {
    [All] + Dedup(CategoriesOf(data))
  }

  /** The category list starts with "All", and after it lists every category of the data exactly once. */
  lemma QuizCategoriesLists(data: seq<Entry>)
    ensures |QuizCategories(data)| >= 1 && QuizCategories(data)[0] == All
    ensures forall c :: c in QuizCategories(data)[1..] <==> exists e :: e in data && e.Category == c
    ensures NoDup(QuizCategories(data)[1..])
  {
    var cats := Dedup(CategoriesOf(data));
    forall c ensures c in cats <==> exists e :: e in data && e.Category == c {
      CategoriesOfMembers(data, c);
    }
    assert ([All] + cats)[1..] == cats;
  }

  /** The distinct categories after "All" keep the order in which the data first mentions them. */
  lemma QuizCategoriesOrder(data: seq<Entry>, i: nat, j: nat)
    requires 1 <= i < j < |QuizCategories(data)|
    ensures FirstIndex(CategoriesOf(data), QuizCategories(data)[i]) < FirstIndex(CategoriesOf(data), QuizCategories(data)[j])
  {
    var d := Dedup(CategoriesOf(data));
    assert QuizCategories(data)[i] == d[i - 1] && QuizCategories(data)[j] == d[j - 1];
    DedupFirstOccurrenceOrder(CategoriesOf(data), i - 1, j - 1);
  }

  /**
   * `Math.floor(Math.random() * n)`: the random value `pick` reduced modulo
   * `n` by repeated subtraction. Every index below `n` is a possible result.
   */
  function PickIndex(pick: nat, n: nat): (i: nat)
    requires n > 0
    ensures i < n && (pick < n ==> i == pick)
    decreases pick
  {
    if pick < n then pick else PickIndex(pick - n, n)
  }

  /** The answer values of a list of entries. */
  function AnswerSet(same: seq<Entry>, t: QuizType): set<string> {
    set e | e in same :: Answer(e, t)
  }

  /** `options.add(x)` on an insertion-ordered set. */
  function Insert(options: seq<string>, x: string): (r: seq<string>)
    ensures |options| <= |r| <= |options| + 1
    ensures x in r && r[..|options|] == options
    ensures NoDup(options) ==> NoDup(r)
    ensures forall y :: y in r <==> y in options || y == x
  {
    if x in options then options else options + [x]
  }

  /** The options after the loop has drawn `draws[0]`, `draws[1]`, ... from `same`, each index taken modulo its length. */
  function Grow(options: seq<string>, same: seq<Entry>, t: QuizType, draws: seq<nat>): seq<string>
    requires |same| > 0 || draws == []
    decreases |draws|
  {
    if draws == [] then options
    else
      var random := same[PickIndex(draws[|draws| - 1], |same|)];
      Insert(Grow(options, same, t, draws[..|draws| - 1]), Answer(random, t))
  }

  /** One more draw inserts the answer of the entry it selects. */
  lemma GrowSnoc(options: seq<string>, same: seq<Entry>, t: QuizType, draws: seq<nat>, d: nat)
    requires |same| > 0
    ensures Grow(options, same, t, draws + [d]) == Insert(Grow(options, same, t, draws), Answer(same[PickIndex(d, |same|)], t))
  {
    assert (draws + [d])[..|draws|] == draws;
  }

  /** Drawing the next of `draws` after the first `k`. */
  lemma GrowPrefix(options: seq<string>, same: seq<Entry>, t: QuizType, draws: seq<nat>, k: nat)
    requires |same| > 0 && k < |draws|
    ensures Grow(options, same, t, draws[..k + 1]) == Insert(Grow(options, same, t, draws[..k]), Answer(same[PickIndex(draws[k], |same|)], t))
  {
    assert draws[..k + 1] == draws[..k] + [draws[k]];
    GrowSnoc(options, same, t, draws[..k], draws[k]);
  }

  /** Growing keeps the options a duplicate-free extension of the start, by one value per draw at most, taken from the answers of `same`. */
  lemma {:induction false} GrowProperties(options: seq<string>, same: seq<Entry>, t: QuizType, draws: seq<nat>)
    requires |same| > 0 || draws == []
    requires NoDup(options)
    ensures var g := Grow(options, same, t, draws);
      |options| <= |g| <= |options| + |draws| && g[..|options|] == options && NoDup(g) &&
      forall x :: x in g ==> x in options || x in AnswerSet(same, t)
    decreases |draws|
  {
    if draws != [] {
      var prev := draws[..|draws| - 1];
      GrowProperties(options, same, t, prev);
      var g0 := Grow(options, same, t, prev);
      var random := same[PickIndex(draws[|draws| - 1], |same|)];
      assert Answer(random, t) in AnswerSet(same, t);
      assert Grow(options, same, t, draws) == Insert(g0, Answer(random, t));
      assert Insert(g0, Answer(random, t))[..|options|] == g0[..|options|];
    }
  }

  /** Grown from the correct answer alone: the answer comes first, and there are at most as many options as distinct candidate values. */
  lemma GrowFromAnswer(answer: string, same: seq<Entry>, t: QuizType, draws: seq<nat>)
    requires |same| > 0 || draws == []
    ensures var g := Grow([answer], same, t, draws);
      1 <= |g| && g[0] == answer && NoDup(g) &&
      (forall x :: x in g ==> x == answer || x in AnswerSet(same, t)) &&
      |g| <= |{answer} + AnswerSet(same, t)|
  {
    var g := Grow([answer], same, t, draws);
    GrowProperties([answer], same, t, draws);
    assert g[..1] == [answer];
    NoDupWithin(g, {answer} + AnswerSet(same, t));
  }

  /**
   * A category of two words, quizzed on characters: whatever the draws, the
   * options never reach four, so the source loop never exits.
   */
  lemma TwoWordCategoryNeverFills(draws: seq<nat>)
    ensures var same := [Entry("你好", "ni3 hao3", "hello", "Greetings"), Entry("谢谢", "xie4 xie4", "thanks", "Greetings")];
      |Grow(["你好"], same, Hanzi, draws)| <= 2
  {
    var same := [Entry("你好", "ni3 hao3", "hello", "Greetings"), Entry("谢谢", "xie4 xie4", "thanks", "Greetings")];
    assert AnswerSet(same, Hanzi) == {"你好", "谢谢"} by {
      assert same[0] in same && same[1] in same;
      assert forall e :: e in same ==> e == same[0] || e == same[1];
    }
    assert {"你好"} + AnswerSet(same, Hanzi) == {"你好", "谢谢"};
    assert |{"你好", "谢谢"}| <= 2;
    GrowFromAnswer("你好", same, Hanzi, draws);
  }

  /** 0, 1, ..., n - 1 */
  function Indices(n: nat): (r: seq<nat>)
    ensures |r| == n && forall i :: 0 <= i < n ==> r[i] == i
  {
    if n == 0 then [] else Indices(n - 1) + [n - 1]
  }

  /** Drawing every entry of `same` once, in turn, collects every answer value of `same`. */
  lemma {:induction false} SweepCollectsAll(options: seq<string>, same: seq<Entry>, t: QuizType, k: nat)
    requires 0 < k <= |same|
    ensures forall i :: 0 <= i < k ==> Answer(same[i], t) in Grow(options, same, t, Indices(k))
    ensures forall x :: x in options ==> x in Grow(options, same, t, Indices(k))
  {
    GrowSnoc(options, same, t, Indices(k - 1), k - 1);
    var prev := Grow(options, same, t, Indices(k - 1));
    var g := Grow(options, same, t, Indices(k));
    assert g == Insert(prev, Answer(same[k - 1], t));
    if k > 1 {
      SweepCollectsAll(options, same, t, k - 1);
    }
    forall i | 0 <= i < k
      ensures Answer(same[i], t) in g
    {
      if i < k - 1 {
        assert Answer(same[i], t) in prev;
      }
    }
  }

  /** So with enough distinct answers a finite sequence of draws reaches four options. */
  lemma SweepReachesFour(answer: string, same: seq<Entry>, t: QuizType)
    requires |same| > 1
    requires |{answer} + AnswerSet(same, t)| >= 4
    ensures |Grow([answer], same, t, Indices(|same|))| >= 4
  {
    var g := Grow([answer], same, t, Indices(|same|));
    SweepCollectsAll([answer], same, t, |same|);
    GrowProperties([answer], same, t, Indices(|same|));
    NoDupCard(g);
    forall x | x in {answer} + AnswerSet(same, t) ensures x in Elems(g) {
      if x != answer {
        var e :| e in same && Answer(e, t) == x;
        var i :| 0 <= i < |same| && same[i] == e;
      }
    }
    SubsetCard({answer} + AnswerSet(same, t), Elems(g));
  }

  /**
   * The distractor loop: starting from `{answer}`, while there are fewer than
   * four options and more than one entry in `same`, add the answer of a
   * randomly drawn entry of `same`. The source loop has no other exit; here it
   * also stops when `draws` runs out, and `exited` reports whether it stopped
   * through its own condition.
   */
  method DrawOptions(answer: string, same: seq<Entry>, t: QuizType, draws: seq<nat>)
    returns (options: seq<string>, used: nat, exited: bool)
    ensures used <= |draws| && (|same| <= 1 ==> used == 0)
    ensures options == Grow([answer], same, t, draws[..used])
    ensures exited <==> |options| == 4 || |same| <= 1
    ensures !exited ==> used == |draws|
    ensures options[0] == answer && NoDup(options) && 1 <= |options| <= 4
    ensures forall x :: x in options ==> x == answer || x in AnswerSet(same, t)
    ensures |same| <= 1 ==> options == [answer]
    ensures |same| > 1 && |{answer} + AnswerSet(same, t)| < 4 ==> !exited
    ensures |same| > 1 && |Grow([answer], same, t, draws)| >= 4 ==> exited
  {
    options := [answer];
    used := 0;
    while |options| < 4 && |same| > 1 && used < |draws|
      invariant used <= |draws| && (|same| <= 1 ==> used == 0)
      invariant options == Grow([answer], same, t, draws[..used])
      invariant |options| <= 4
    {
      GrowPrefix([answer], same, t, draws, used);
      var random := same[PickIndex(draws[used], |same|)];
      options := Insert(options, Answer(random, t));
      used := used + 1;
    }
    exited := |options| >= 4 || |same| <= 1;
    LoopExit(answer, same, t, draws, used, options, exited);
  }

  /** How the distractor loop stands once it has stopped after `used` draws. */
  lemma LoopExit(answer: string, same: seq<Entry>, t: QuizType, draws: seq<nat>, used: nat, options: seq<string>, exited: bool)
    requires used <= |draws| && (|same| <= 1 ==> used == 0)
    requires options == Grow([answer], same, t, draws[..used]) && |options| <= 4
    requires |options| < 4 && |same| > 1 ==> used == |draws|
    requires exited == (|options| >= 4 || |same| <= 1)
    ensures exited <==> |options| == 4 || |same| <= 1
    ensures !exited ==> used == |draws|
    ensures options[0] == answer && NoDup(options) && 1 <= |options| <= 4
    ensures forall x :: x in options ==> x == answer || x in AnswerSet(same, t)
    ensures |same| <= 1 ==> options == [answer]
    ensures |same| > 1 && |{answer} + AnswerSet(same, t)| < 4 ==> !exited
    ensures |same| > 1 && |Grow([answer], same, t, draws)| >= 4 ==> exited
  {
    GrowFromAnswer(answer, same, t, draws[..used]);
    if |same| <= 1 {
      assert draws[..used] == [];
    } else if |Grow([answer], same, t, draws[..used])| < 4 {
      assert draws[..used] == draws;
    }
  }

  /** `xs` without its element at `i`. */
  function RemoveAt(xs: seq<string>, i: nat): (rest: seq<string>)
    requires i < |xs|
    ensures |rest| == |xs| - 1
    ensures multiset(xs) == multiset(rest) + multiset{xs[i]}
    ensures NoDup(xs) ==> NoDup(rest) && xs[i] !in rest
  {
    var rest := xs[..i] + xs[i + 1..];
    assert xs == xs[..i] + [xs[i]] + xs[i + 1..];
    assert NoDup(xs) ==> xs[i] !in xs[..i] && xs[i] !in xs[i + 1..];
    rest
  }

  /**
   * `sort(() => Math.random() - 0.5)`: some order of `xs`. Each entry of
   * `order` chooses, modulo the number left, which element comes next.
   */
  function Permute(xs: seq<string>, order: seq<nat>): (r: seq<string>)
    ensures |r| == |xs| && multiset(r) == multiset(xs)
    ensures forall x :: x in r <==> x in xs
    ensures NoDup(xs) ==> NoDup(r)
    decreases |xs|
  {
    if xs == [] then []
    else
      var i := if order == [] then 0 else PickIndex(order[0], |xs|);
      var rest := RemoveAt(xs, i);
      var tail := Permute(rest, if order == [] then [] else order[1..]);
      ConsProperties(xs[i], tail, rest);
      assert forall y :: y in xs <==> y in multiset(xs);
      assert forall y :: y in rest <==> y in multiset(rest);
      [xs[i]] + tail
  }

  /** Putting `x` in front of a reordering of `rest`. */
  lemma ConsProperties(x: string, tail: seq<string>, rest: seq<string>)
    requires multiset(tail) == multiset(rest)
    ensures multiset([x] + tail) == multiset(rest) + multiset{x}
    ensures forall y :: y in [x] + tail <==> y == x || y in rest
    ensures NoDup(tail) && x !in rest ==> NoDup([x] + tail)
  {
    assert forall y :: y in tail <==> y in multiset(tail);
    assert forall y :: y in rest <==> y in multiset(rest);
  }

  /** Index of `x` in `xs`. */
  function IndexOf(xs: seq<string>, x: string): (k: nat)
    requires x in xs
    ensures k < |xs| && xs[k] == x
  {
    if xs[0] == x then 0 else 1 + IndexOf(xs[1..], x)
  }

  /** Every order of the options is one the comparator sort can produce. */
  lemma {:induction false} PermuteOnto(xs: seq<string>, ys: seq<string>) returns (order: seq<nat>)
    requires multiset(xs) == multiset(ys)
    ensures Permute(xs, order) == ys
    decreases |xs|
  {
    if xs == [] {
      order := [];
      assert |ys| == |multiset(ys)| == 0;
    } else {
      assert |ys| == |multiset(ys)| == |multiset(xs)| == |xs|;
      assert ys[0] in multiset(xs);
      var i := IndexOf(xs, ys[0]);
      var rest := RemoveAt(xs, i);
      assert ys == [ys[0]] + ys[1..];
      assert multiset(ys) == multiset(ys[1..]) + multiset{ys[0]};
      MultisetCancel(multiset(rest), multiset(ys[1..]), ys[0]);
      var tail := PermuteOnto(rest, ys[1..]);
      order := [i] + tail;
      assert order[0] == i && order[1..] == tail;
      PermuteUnfold(xs, order);
    }
  }

  lemma MultisetCancel(a: multiset<string>, b: multiset<string>, x: string)
    requires a + multiset{x} == b + multiset{x}
    ensures a == b
  {
    assert a == (a + multiset{x}) - multiset{x};
  }

  /** One step of the reordering, when `order` supplies the choice. */
  lemma PermuteUnfold(xs: seq<string>, order: seq<nat>)
    requires xs != [] && order != []
    ensures Permute(xs, order) == [xs[PickIndex(order[0], |xs|)]] + Permute(RemoveAt(xs, PickIndex(order[0], |xs|)), order[1..])
  {
  }

  /** The feedback for a correct answer. */
  const CorrectFeedback := "✅ Correct!"

  /** The start of the feedback for a wrong answer; the correct answer follows it. */
  const WrongFeedback := "❌ Wrong. Correct answer: "

  /** checkAnswer's message: correct exactly when the choice is the answer, otherwise it names the answer. */
  function Feedback(choice: string, answer: string): (r: string)
    ensures r == CorrectFeedback <==> choice == answer
    ensures choice != answer ==> r == WrongFeedback + answer
  {
    assert (WrongFeedback + answer)[0] != CorrectFeedback[0];
    if choice == answer then CorrectFeedback else WrongFeedback + answer
  }

  /** `Math.floor(Math.random() * n)` as an index into `questions`. */
  function Chosen(questions: seq<Entry>, pick: nat): (c: Entry)
    requires questions != []
    ensures c in questions
  {
    questions[PickIndex(pick, |questions|)]
  }

  /** The correct entry belongs to the entries of its own category, so its answer is among theirs. */
  lemma OwnCategory(questions: seq<Entry>, c: Entry, t: QuizType)
    requires c in questions
    ensures c in WithCategory(questions, c.Category)
    ensures {Answer(c, t)} + AnswerSet(WithCategory(questions, c.Category), t) == AnswerSet(WithCategory(questions, c.Category), t)
  {
    WithCategoryMembers(questions, c.Category);
    assert Answer(c, t) in AnswerSet(WithCategory(questions, c.Category), t);
  }

  /** A reordering of a single option is that option. */
  lemma SingletonOrder(xs: seq<string>, r: seq<string>)
    requires |r| == |xs| && forall x :: x in r <==> x in xs
    ensures |xs| == 1 ==> r == xs
  {
    if |xs| == 1 {
      assert r[0] in xs;
    }
  }

  /**
   * What the page promises of the choices shown for the answer `answer` when
   * the distractors come from `same`: a duplicate-free list of one to four
   * values holding the answer, every other value the answer of an entry of
   * `same`; only the answer when `same` has one entry or none, else four.
   */
  predicate ChoicesFor(choices: seq<string>, answer: string, same: seq<Entry>, t: QuizType) {
    answer in choices && NoDup(choices) && 1 <= |choices| <= 4 &&
    (forall x :: x in choices ==> x == answer || x in AnswerSet(same, t)) &&
    (|same| <= 1 ==> choices == [answer]) &&
    (|same| > 1 ==> |choices| == 4)
  }

  /**
   * When a run of the distractor loop from `answer` over `draws` finishes: at
   * once with at most one entry in `same`; with more, once the draws give four
   * values, and never while fewer than four distinct values exist.
   */
  predicate Finishes(finished: bool, answer: string, same: seq<Entry>, t: QuizType, draws: seq<nat>) {
    (|same| <= 1 ==> finished) &&
    (|same| > 1 && |Grow([answer], same, t, draws)| >= 4 ==> finished) &&
    (|same| > 1 && |{answer} + AnswerSet(same, t)| < 4 ==> !finished)
  }

  /**
   * The loop stopped after the first `u` draws: at once with at most one entry
   * in `same`; with more, finished exactly when those draws built four options
   * and unfinished only once every draw is used. When it finished, the choices
   * are a reordering of the options those draws built.
   */
  predicate StoppedAt(finished: bool, choices: seq<string>, answer: string, same: seq<Entry>, t: QuizType, draws: seq<nat>, u: nat)
    requires u <= |draws|
  {
    (|same| <= 1 ==> u == 0) &&
    (finished <==> |same| <= 1 || |Grow([answer], same, t, draws[..u])| == 4) &&
    (!finished ==> u == |draws|) &&
    (finished ==> multiset(choices) == multiset(Grow([answer], same, t, draws[..u])))
  }

  /** The choices and the finish flag come from a run of the loop over some prefix of `draws`. */
  predicate Drawn(finished: bool, choices: seq<string>, answer: string, same: seq<Entry>, t: QuizType, draws: seq<nat>) {
    exists u: nat :: u <= |draws| && StoppedAt(finished, choices, answer, same, t, draws, u)
  }

  /** With more than one entry in `same` the loop cannot finish before its first draw. */
  lemma NoFinishWithoutDraws(choices: seq<string>, answer: string, same: seq<Entry>, t: QuizType)
    requires |same| > 1
    ensures !Drawn(true, choices, answer, same, t, [])
  {
  }

  /** An unfinished run says nothing about the choices, so any choices may stay on screen. */
  lemma DrawnUnfinished(choices: seq<string>, shown: seq<string>, answer: string, same: seq<Entry>, t: QuizType, draws: seq<nat>)
    requires Drawn(false, choices, answer, same, t, draws)
    ensures Drawn(false, shown, answer, same, t, draws)
  {
    var u: nat :| u <= |draws| && StoppedAt(false, choices, answer, same, t, draws, u);
    assert StoppedAt(false, shown, answer, same, t, draws, u);
  }

  /**
   * The part that generateQuestion and reshuffleChoices share: the entries of
   * the category of `c`, the distractor loop from the answer of `c`, and the
   * random-comparator sort. `exited` is false when the loop did not finish.
   */
  method FreshChoices(c: Entry, questions: seq<Entry>, t: QuizType, draws: seq<nat>, order: seq<nat>)
    returns (choices: seq<string>, exited: bool)
    ensures Finishes(exited, Answer(c, t), WithCategory(questions, c.Category), t, draws)
    ensures exited ==> ChoicesFor(choices, Answer(c, t), WithCategory(questions, c.Category), t)
    ensures Drawn(exited, choices, Answer(c, t), WithCategory(questions, c.Category), t, draws)
  {
    var sameCategoryQuestions := WithCategory(questions, c.Category);
    var options, used;
    options, used, exited := DrawOptions(Answer(c, t), sameCategoryQuestions, t, draws);
    choices := Permute(options, order);
    SingletonOrder(options, choices);
    assert StoppedAt(exited, choices, Answer(c, t), sameCategoryQuestions, t, draws, used);
  }

  /** The question list follows the selection, and the category list follows the data once loaded. */
  predicate Filtered(allData: seq<Entry>, selected: seq<string>, questions: seq<Entry>, categories: seq<string>) {
    questions == ActiveQuestions(allData, selected) &&
    ((allData == [] && categories == []) || categories == QuizCategories(allData))
  }

  /** Once the category list is loaded it starts with "All", so selecting every non-empty label activates the whole word list. */
  lemma SelectAllKeepsAll(allData: seq<Entry>, categories: seq<string>)
    requires (allData == [] && categories == []) || categories == QuizCategories(allData)
    ensures categories != [] ==> ActiveQuestions(allData, Without(categories, "")) == allData
  {
    if categories != [] {
      assert categories[0] == All && All != "";
      assert All in Without(categories, "");
      ActiveQuestionsSelects(allData, Without(categories, ""));
    }
  }

  /** The state of the quiz page. */
  class Quiz {
    var categories: seq<string>
    var selectedCategories: seq<string>
    var allData: seq<Entry>
    var questions: seq<Entry>
    var quizType: QuizType
    var currentQuestion: Option<Entry>
    var choices: seq<string>
    var selected: string
    var feedback: string

    /** The lists follow the data and the selection, and the choices are a small set. */
    ghost predicate Valid()
      reads this
    {
      Filtered(allData, selectedCategories, questions, categories) &&
      NoDup(choices) && |choices| <= 4 &&
      (currentQuestion.None? ==> choices == [])
    }

    /** The initial component state. */
    constructor ()
      ensures Valid()
      ensures categories == [] && selectedCategories == [All] && allData == [] && questions == []
      ensures quizType == Hanzi && currentQuestion == None && choices == [] && selected == "" && feedback == ""
    {
      categories, selectedCategories, allData, questions := [], [All], [], [];
      quizType, currentQuestion, choices, selected, feedback := Hanzi, None, [], "", "";
    }

    /** The rows parsed from the CSV arrive; the category-filter effect then runs on the new data. */
    method Load(data: seq<Entry>)
      requires Valid()
      modifies this
      ensures Valid()
      ensures allData == data && categories == QuizCategories(data)
      ensures questions == ActiveQuestions(data, selectedCategories)
      ensures selectedCategories == old(selectedCategories) && quizType == old(quizType)
      ensures currentQuestion == old(currentQuestion) && choices == old(choices)
      ensures selected == old(selected) && feedback == old(feedback)
    {
      allData := data;
      questions := data;
      categories := QuizCategories(data);
      questions := ActiveQuestions(allData, selectedCategories);
    }

    /** A category checkbox is ticked or cleared; the effect then filters the data again. */
    method ToggleCategory(value: string, checked: bool)
      requires Valid()
      modifies this
      ensures Valid()
      ensures selectedCategories == if checked then old(selectedCategories) + [value] else Without(old(selectedCategories), value)
      ensures questions == ActiveQuestions(allData, selectedCategories)
      ensures allData == old(allData) && categories == old(categories) && quizType == old(quizType)
      ensures currentQuestion == old(currentQuestion) && choices == old(choices)
      ensures selected == old(selected) && feedback == old(feedback)
    {
      selectedCategories := if checked then selectedCategories + [value] else Without(selectedCategories, value);
      questions := ActiveQuestions(allData, selectedCategories);
    }

    /** "Select All": every non-empty category label, "All" included, so the whole word list is active once loaded. */
    method SelectAll()
      requires Valid()
      modifies this
      ensures Valid()
      ensures selectedCategories == Without(old(categories), "")
      ensures questions == ActiveQuestions(allData, selectedCategories)
      ensures categories != [] ==> questions == allData
      ensures allData == old(allData) && categories == old(categories) && quizType == old(quizType)
      ensures currentQuestion == old(currentQuestion) && choices == old(choices)
      ensures selected == old(selected) && feedback == old(feedback)
    {
      SelectAllKeepsAll(allData, categories);
      selectedCategories := Without(categories, "");
      questions := allData;
      questions := ActiveQuestions(allData, selectedCategories);
    }

    /** "Clear All": nothing selected, no questions. */
    method ClearAll()
      requires Valid()
      modifies this
      ensures Valid()
      ensures selectedCategories == [] && questions == []
      ensures allData == old(allData) && categories == old(categories) && quizType == old(quizType)
      ensures currentQuestion == old(currentQuestion) && choices == old(choices)
      ensures selected == old(selected) && feedback == old(feedback)
    {
      selectedCategories := [];
      questions := [];
      questions := ActiveQuestions(allData, selectedCategories);
      FilterInNone(allData);
    }

    /** A quiz type radio is chosen; nothing is regenerated. */
    method SetQuizType(t: QuizType)
      requires Valid()
      modifies this
      ensures Valid()
      ensures quizType == t
      ensures allData == old(allData) && categories == old(categories) && selectedCategories == old(selectedCategories)
      ensures questions == old(questions) && currentQuestion == old(currentQuestion) && choices == old(choices)
      ensures selected == old(selected) && feedback == old(feedback)
    {
      quizType := t;
    }

    /**
     * generateQuestion. With no questions it does nothing. Otherwise it picks
     * the correct entry and shows fresh choices for it. `returned` is false
     * when the draws ran out while the loop still wanted more: the source
     * handler would keep looping and never reach its state updates, so the
     * state stays as it was.
     */
    method GenerateQuestion(pick: nat, draws: seq<nat>, order: seq<nat>) returns (returned: bool)
      requires Valid()
      modifies this
      ensures Valid()
      ensures allData == old(allData) && categories == old(categories) && selectedCategories == old(selectedCategories)
      ensures questions == old(questions) && quizType == old(quizType)
      ensures !returned || questions == [] ==> unchanged(this)
      ensures questions == [] ==> returned
      ensures questions != [] ==>
        var c := Chosen(questions, pick);
        var same := WithCategory(questions, c.Category);
        Finishes(returned, Answer(c, quizType), same, quizType, draws) &&
        Drawn(returned, choices, Answer(c, quizType), same, quizType, draws) &&
        (returned ==> currentQuestion == Some(c) && ChoicesFor(choices, Answer(c, quizType), same, quizType) && selected == "" && feedback == "")
    {
      if |questions| == 0 {
        return true;
      }
      var c, t := Chosen(questions, pick), quizType;
      var shown, exited := FreshChoices(c, questions, t, draws, order);
      if !exited {
        DrawnUnfinished(shown, choices, Answer(c, t), WithCategory(questions, c.Category), t, draws);
        return false;
      }
      currentQuestion, choices, selected, feedback := Some(c), shown, "", "";
      returned := true;
    }

    /**
     * reshuffleChoices. Without a current question it does nothing. Otherwise
     * it shows fresh choices for the same question, drawn from the entries of
     * its category in the current question list.
     */
    method ReshuffleChoices(draws: seq<nat>, order: seq<nat>) returns (returned: bool)
      requires Valid()
      modifies this
      ensures Valid()
      ensures allData == old(allData) && categories == old(categories) && selectedCategories == old(selectedCategories)
      ensures questions == old(questions) && quizType == old(quizType) && currentQuestion == old(currentQuestion)
      ensures !returned || currentQuestion == None ==> unchanged(this)
      ensures currentQuestion == None ==> returned
      ensures currentQuestion != None ==>
        var c := currentQuestion.value;
        var same := WithCategory(questions, c.Category);
        Finishes(returned, Answer(c, quizType), same, quizType, draws) &&
        Drawn(returned, choices, Answer(c, quizType), same, quizType, draws) &&
        (returned ==> ChoicesFor(choices, Answer(c, quizType), same, quizType) && selected == "" && feedback == "")
    {
      if currentQuestion == None {
        return true;
      }
      var c, t := currentQuestion.value, quizType;
      var shown, exited := FreshChoices(c, questions, t, draws, order);
      if !exited {
        DrawnUnfinished(shown, choices, Answer(c, t), WithCategory(questions, c.Category), t, draws);
        return false;
      }
      choices, selected, feedback := shown, "", "";
      returned := true;
    }

    /** checkAnswer: records the choice and the feedback for it. */
    method CheckAnswer(choice: string)
      requires Valid()
      requires currentQuestion.Some?
      modifies this
      ensures Valid()
      ensures allData == old(allData) && categories == old(categories) && selectedCategories == old(selectedCategories)
      ensures questions == old(questions) && quizType == old(quizType)
      ensures currentQuestion == old(currentQuestion) && choices == old(choices)
      ensures selected == choice
      ensures feedback == Feedback(choice, Answer(currentQuestion.value, quizType))
      ensures feedback == CorrectFeedback <==> choice == Answer(currentQuestion.value, quizType)
    {
      selected := choice;
      var correctAnswer := Answer(currentQuestion.value, quizType);
      feedback := Feedback(choice, correctAnswer);
    }
  }

  /** `s.filter(c => c !== v)`; with `v == ""` this is `s.filter(c => c)`. */
  function Without(s: seq<string>, v: string): (r: seq<string>)
    ensures forall c :: c in r <==> c in s && c != v
    ensures multiset(r) == multiset(s)[v := 0]
    ensures IsSubsequence(r, s)
  {
    if s == [] then []
    else
      assert s == [s[0]] + s[1..];
      var rest := Without(s[1..], v);
      assert rest == [] || rest[0] in rest;
      assert ([s[0]] + rest)[1..] == rest;
      if s[0] == v then rest else [s[0]] + rest
  }
}
