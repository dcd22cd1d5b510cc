# Chinese Quiz: a Dafny model of the quiz engine and the dictionary editor

Chinese Quiz is a browser study tool for Chinese vocabulary. It works on a list of entries with four
columns (`Hanzi`, `Pinyin`, `English`, `Category`). The quiz page filters the list by category,
picks a correct entry and a set of up to four answer choices from its category, and checks the
answer. The dictionary editor shows the entries of one category and adds entries through a form.

This project models both pages' state and logic in Dafny and proves properties of the model:

- `vocab.dfy`, module `Vocab`: the entry record and the list operations both pages use.
  - `FilterIn` and `WithCategory` model `Array.prototype.filter` on the category.
  - `Dedup` models `Array.from(new Set(...))`.
  - `NoDup` means a sequence holds no value twice, as a `Set` does.
- `quiz_page.dfy`, module `QuizPage`: the quiz page.
  - Pure parts are functions: the category-filter effect, the category list, the prompt and the feedback message.
  - The distractor loop is the method `DrawOptions`, with loop invariants. `Grow` is the function that specifies it.
  - The random-comparator sort is `Permute`.
  - The component state is the class `Quiz`. Each event handler is a method that updates its fields.
- `dictionary_page.dfy`, module `DictionaryPage`: the dictionary editor.
  - The state is the class `Dictionary`. Its invariant `Valid()` ties the table and the category list to the data.
  - The add-entry handler `Submit` keeps that invariant.

Randomness comes in through parameters:

- `pick` chooses the correct entry. `Math.floor(Math.random() * n)` is modelled as `PickIndex(pick, n)`, which
  reduces `pick` modulo `n` by repeated subtraction.
- `draws` gives one index per iteration of the distractor loop, reduced in the same way by the list length.
- `order` drives the reordering of the options. Each element chooses which remaining option comes next.

The distractor loop `while (options.size < 4 && sameCategoryQuestions.length > 1)` can run forever.
In the model it runs over a finite `draws` sequence. `DrawOptions` reports `exited == false` when the
draws run out while the loop condition still holds; in the source the handler would still be looping.
Its contract proves when this happens:

- If at most one entry has the correct entry's category, the loop body never runs and there is exactly one choice.
- If there are at least two such entries but fewer than four distinct answer values among them and the correct
  answer, the loop never exits, for every finite sequence of draws.
- Otherwise, when it exits, there are exactly four distinct options.

`SweepReachesFour` shows that with at least four distinct values some finite sequence of draws does end the loop.
When the loop does not exit, `GenerateQuestion` and `ReshuffleChoices` return `false` and change no state, since
the source handler never reaches its state updates.

React state updates and effects are folded into the handler that triggers them:

- Loading the CSV rows also runs the category-filter effect.
- Changing the selection refilters the question list.
- Changing the dictionary's selected category refreshes the table.
- Submitting the dictionary form changes the data, which re-runs the table effect. `Submit` does not call
  `RefreshView`; it appends the entry to the table when it is in the selected category, and
  `AppendKeepsBookkeeping` proves that this gives the same table as re-filtering the new data.

The CSV rows are taken as an input (`Load(data)`).

### Behaviour of the code worth knowing

- With more than one same-category entry but fewer than four distinct answers, the distractor loop never ends, so
  a category of two or three words freezes the page. `DrawOptions` proves this for every sequence of draws;
  `TwoWordCategoryNeverFills` is a worked instance for a two-word category.
- Choices are ordered by `sort` with a random comparator, not by an unbiased shuffle.
- A selection that contains `"All"` makes the whole word list the questions, whatever else is selected; `"All"` is
  never expanded into the individual categories.
- The dictionary form has inputs for pinyin and category only. Hanzi and English come from placeholder conversions
  (`"汉字" + pinyin`, `"Meaning of " + pinyin`). Entries are appended in memory only: there is no update, removal or
  persistence.

## Model

| member | source | states |
|---|---|---|
| `Vocab.Dedup` | src/DictionaryPage.js:30 | The category list holds exactly the values of its input, each once, and is no longer than the input |
| `Vocab.DedupFirstOccurrenceOrder` | src/DictionaryPage.js:30 | The deduplicated categories appear in the order of their first occurrence in the data |
| `Vocab.CategoriesOfMembers` | src/QuizPage.js:42 | A label is among the mapped categories exactly when some entry carries it |
| `Vocab.FilterInMembers` | src/QuizPage.js:52 | The filtered list holds exactly the entries of the data whose category is in the selection |
| `Vocab.FilterInSubsequence` | src/QuizPage.js:52 | The filter keeps the entries in their original order |
| `Vocab.FilterInCount` | src/QuizPage.js:22 | Each selected entry is kept as often as it occurs (duplicates included); unselected entries never appear |
| `Vocab.FilterInAll` | src/QuizPage.js:52 | When every entry is in a selected category, the filter returns the data unchanged |
| `Vocab.FilterInNone` | src/QuizPage.js:19-20 | An empty selection yields an empty list |
| `Vocab.FilterInAppend` | src/DictionaryPage.js:38 | Filtering distributes over concatenation |
| `Vocab.WithCategoryMembers` | src/DictionaryPage.js:38 | The table holds exactly the entries whose category equals the selected one |
| `Vocab.WithCategoryAppend` | src/DictionaryPage.js:111-114 | Appending an entry extends the category view by that entry exactly when it is in the category |
| `QuizPage.PromptType` | src/QuizPage.js:116-118 | The prompt column is never the answer column |
| `QuizPage.AnswerIsNamedColumn` | src/QuizPage.js:71 | `entry[quizType]` is the entry's property named by the radio's value ("Hanzi", "Pinyin" or "English"), never its category |
| `QuizPage.PromptTypeIsCycle` | src/QuizPage.js:116-118 | An illustration: the answer-to-prompt mapping Hanzi→English, Pinyin→Hanzi, English→Pinyin is one-to-one |
| `QuizPage.QuestionPrompt` | src/QuizPage.js:114-119 | No question gives ""; otherwise the prompt is the current entry's English, Hanzi or Pinyin for quiz type Hanzi, Pinyin or English |
| `QuizPage.FilterQuestionsIsFilter` | src/QuizPage.js:18-25 | filterQuestionsByCategories gives [] for an empty selection and otherwise the plain category filter; the two always agree |
| `QuizPage.ActiveQuestionsSelects` | src/QuizPage.js:48-55 | With "All" selected the questions are all the data; otherwise exactly the entries of the selected categories; always in original order |
| `QuizPage.QuizCategoriesLists` | src/QuizPage.js:42-43 | The category list is "All" followed by the distinct categories of the data, each exactly once |
| `QuizPage.QuizCategoriesOrder` | src/QuizPage.js:42-43 | The categories after "All" are in first-occurrence order |
| `QuizPage.Insert` | src/QuizPage.js:75 | `Set.add` grows the options by at most one value, keeps earlier values in place and keeps them duplicate-free |
| `QuizPage.GrowProperties` | src/QuizPage.js:71-76 | After any draws the options still start with the initial set, stay duplicate-free, grow by at most one per draw, and hold only answers of same-category entries |
| `QuizPage.GrowFromAnswer` | src/QuizPage.js:71-76 | Starting from the correct answer, it stays first, and the options never outnumber the distinct candidate values |
| `QuizPage.TwoWordCategoryNeverFills` | src/QuizPage.js:73-76 | A worked instance of `GrowFromAnswer`: with two same-category words, no sequence of draws gives four options |
| `QuizPage.NoFinishWithoutDraws` | src/QuizPage.js:71-76 | With more than one same-category entry, no run of the loop finishes without drawing at least once |
| `QuizPage.SweepCollectsAll` | src/QuizPage.js:73-76 | Drawing each same-category entry once collects every answer value |
| `QuizPage.SweepReachesFour` | src/QuizPage.js:73-76 | With at least four distinct candidate values, some finite sequence of draws gives four options |
| `QuizPage.DrawOptions` | src/QuizPage.js:71-76 | The loop result starts with the correct answer, is duplicate-free, holds 1..4 values from same-category answers, and is one value when ≤1 entry shares the category; it exits iff there are 4 options or ≤1 entry; with ≥2 entries and <4 distinct values it never exits |
| `QuizPage.Permute` | src/QuizPage.js:79 | The displayed choices are a permutation of the options: same length, same multiset, still duplicate-free |
| `QuizPage.PermuteOnto` | src/QuizPage.js:79 | Every ordering of the options is produced by some random order |
| `QuizPage.Feedback` | src/QuizPage.js:106-111 | The feedback is "✅ Correct!" exactly when the choice equals the answer; otherwise it names the correct answer |
| `QuizPage.PickIndex` | src/QuizPage.js:64 | The random index always lies inside the list, and a pick already inside it is used as is |
| `QuizPage.Chosen` | src/QuizPage.js:64 | The correct entry is an element of the question list |
| `QuizPage.OwnCategory` | src/QuizPage.js:64-69 | The correct entry is among the entries of its own category |
| `QuizPage.FreshChoices` | src/QuizPage.js:67-79 | The category filter, the loop and the sort: with ≤1 same-category entry they finish at once with the answer as the only choice; with more they finish exactly when the draws used built four options, are unfinished only once every draw is used, finish whenever the draws give four values and never with <4 distinct values; when finished the choices are a reordering (same multiset) of the options those draws built and meet `ChoicesFor` |
| `QuizPage.Without` | src/QuizPage.js:141 | Unticking a category removes every occurrence of that value and keeps every other value as often as it occurred, in order (`filter(cat => cat)` removes "" in the same way) |
| `QuizPage.Quiz.constructor` | src/QuizPage.js:8-17 | Initial state: selection ["All"], quiz type Hanzi, everything else empty or null |
| `QuizPage.Quiz.Load` | src/QuizPage.js:29-44 | Installs the data and its category list; the effect then sets the questions for the current selection |
| `QuizPage.Quiz.ToggleCategory` | src/QuizPage.js:137-142 | Ticking appends the category to the selection, unticking removes it; the questions follow the new selection |
| `QuizPage.Quiz.SelectAll` | src/QuizPage.js:155-158 | Selects every non-empty category label; once loaded, this makes all data the questions |
| `QuizPage.Quiz.ClearAll` | src/QuizPage.js:164-167 | Empty selection and no questions |
| `QuizPage.Quiz.SetQuizType` | src/QuizPage.js:184 | Changes only the quiz type; nothing is regenerated |
| `QuizPage.Quiz.GenerateQuestion` | src/QuizPage.js:61-82 | No-op on an empty list. Otherwise, for the entry chosen by `pick`: it returns at once with the answer as the only choice when ≤1 entry shares its category, returns exactly when the draws used built four options, and hangs (state untouched) with ≥2 same-category entries and <4 distinct answers; when it returns, that entry is the current question, the choices are a reordering of the options those draws built and meet `ChoicesFor`, and selected and feedback are reset |
| `QuizPage.Quiz.ReshuffleChoices` | src/QuizPage.js:84-101 | No-op without a question. Otherwise it returns and hangs in the same cases as generateQuestion; when it returns, the question is kept, the choices are a reordering of the options the draws used built and meet `ChoicesFor`, and selected and feedback are reset |
| `QuizPage.Quiz.CheckAnswer` | src/QuizPage.js:104-112 | Records the choice; the feedback is "correct" iff the choice equals the current entry's quiz-type column, else it names that answer |
| `DictionaryPage.MockConversionsKeepPinyin` | src/DictionaryPage.js:16-22 | Hanzi is "汉字" + pinyin and English is "Meaning of " + pinyin; the pinyin can be read back and distinct inputs stay distinct |
| `DictionaryPage.NewEntry` | src/DictionaryPage.js:105-110 | The new entry keeps the typed pinyin and category, and its Hanzi and English columns each carry the pinyin after the placeholder prefix |
| `DictionaryPage.FirstCategoryOfData` | src/DictionaryPage.js:30-32 | The dropdown starts at the category of the first row, or "" (undefined) when there are no rows |
| `DictionaryPage.AppendKeepsBookkeeping` | src/DictionaryPage.js:111-117 | The handler's conditional appends keep the table equal to the filter of the new data and the category list equal to its distinct categories |
| `DictionaryPage.Dictionary.constructor` | src/DictionaryPage.js:8-13 | Initial state: everything empty |
| `DictionaryPage.Dictionary.Load` | src/DictionaryPage.js:24-34 | Installs the data, its distinct categories in first-occurrence order and the first row's category as selection; the table then shows that category |
| `DictionaryPage.Dictionary.RefreshView` | src/DictionaryPage.js:36-39 | While a category is selected the table is its entries; with no selection it is untouched |
| `DictionaryPage.Dictionary.SelectCategory` | src/DictionaryPage.js:51 | The dropdown sets the selection and the table follows |
| `DictionaryPage.Dictionary.EditPinyin` | src/DictionaryPage.js:128 | Only the pinyin input changes |
| `DictionaryPage.Dictionary.EditCategory` | src/DictionaryPage.js:137 | Only the category input changes |
| `DictionaryPage.Dictionary.Submit` | src/DictionaryPage.js:103-120 | With both inputs filled: appends the new entry to the data, to the table iff it is in the selected category, its category to the list iff new; clears both inputs; keeps the invariant and no duplicates |

## Left out

- Rendering (JSX), the buttons, checkboxes, radios and dropdown: only the state changes they trigger are modelled.
  The disabled states (the "Next Question" button without questions, choice buttons after a selection) are UI only.
- Text-to-speech (`playChinese` in src/utils/tts.js): a browser API call with no state of the page.
- src/App.js: routing, the theme toggle writing to `localStorage` and the document, and the floating-point TTS
  speed slider are browser I/O.
- `fetch("/dictionary.csv")` and `Papa.parse`: network I/O and a library. The parsed rows are the input of `Load`.
  Malformed rows with missing columns are not modelled; every column is a string.
- The `started` state variable of the quiz page: declared, never read or written.
- React's scheduling: state setters and effects are applied synchronously, in the order the handler issues them,
  effect included.
- QuizPage.Permute: the order of the choices comes from a sequence of picks, not from running `sort` with a random
  comparator. The model proves only that the result is a permutation and that every permutation is reachable
  (`PermuteOnto`). It says nothing about uniformity, and neither the random draws nor the shuffle claim any distribution.
- QuizPage.DrawOptions: the loop runs over a finite sequence of draws. When it stops with `exited == false`, the
  source would still be looping; the model represents that as a handler that never returns and changes no state.
- QuizPage.Quiz.CheckAnswer: requires a current question. The source would throw on `null`, but it only shows
  choice buttons while a question exists.
- Editing and deleting entries, and persisting the list: not in the source.
