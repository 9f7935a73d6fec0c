# kdo's todo.txt engine, in Dafny

kdo is a terminal viewer and editor for todo.txt files. This project models its engine and proves
properties about that model. The engine has six parts:

- **The task record and its line format.** `Task` has a completion flag, a priority letter, a
  completion date, a creation date, a description, and the `@context` and `+project` tags taken
  from the description. `Display` renders a task back to one todo.txt line. The derived `Ord` is
  the sort order.
- **The line parser.** A lexer sorts each whitespace-separated token into `x`, `(A)`, a
  `YYYY-MM-DD` date or a word. A forward-only state machine reads the leading structured fields;
  the first token that does not fit starts the description.
- **`TasksFilter` and the facet collectors.** A filter is a pair of parallel sequences, the
  surviving tasks and their original indices, narrowed one criterion at a time. The collectors
  build the distinct, sorted contexts, projects and priorities.
- **The loader.** It turns lines into tasks. Blank lines are skipped and lines that fail to parse
  are dropped.
- **`SelectionList`.** A fixed sequence of items with an optional cursor. The cursor wraps around
  on next/previous, and select is bounds-checked.
- **The `App` controller.** It holds:
  - the task vector, with a `[new]` sentinel at index 0;
  - four selection lists: the filtered task rows, plus contexts, projects and priorities, each
    facet list headed by `[all]`;
  - a mode (Normal, Edit, Help, Confirm) and a focus (Tasks, Contexts, Projects, Priorities).

  Its methods navigate, filter, complete, sort, save, delete, append and replace tasks, and they
  rebuild the derived lists after each edit.

## How the model is organised

The modules follow the source files:

- `TaskModel` models `task.rs`.
- `Parse` models `parse.rs`, together with `Task::from_str`.
- `Tasks` holds the `TasksFilter` class and the free filter functions of `tasks.rs`.
- `Facets` holds the `collect_*`/`num_*` loops of `tasks.rs`.
- `TodoTxt` models `lib.rs`.
- `Selection` models `selection_list.rs`.
- `Application` models `app.rs`.

Three support modules supply what the Rust standard library and crates provide:

- `Text`: `split_whitespace`, `join`, `trim`, `char::is_whitespace`.
- `Dates`: `chrono::NaiveDate` read with `%Y-%m-%d` and written by `Display`.
- `Ordering`: the lexicographic `Ord` of `String` and `Vec<String>`.

Code that changes state step by step is modelled imperatively:

- `SelectionList` and `TasksFilter` are classes whose methods reassign their fields.
- `App` is a class. Its methods modify `tasks`, `mode`, `focus`, `omitCompleted` and `errorMsg`,
  and they replace or `Select` its four lists.
- `set_description`, `read_tasks` and the collectors are methods with loops. Each is proved
  against a function of its inputs.

The parser is a fold (`Run`) over the token sequence. It calls the transition function `Next` and
stops at the first token that starts the description.

Each method's `ensures` gives its result or its new state through specification functions of
its inputs and its old state. For the controller's edits this includes the rebuilt lists and
where every cursor ends up. The properties are proved about those functions as lemmas:

- parsing a rendered task gives the task back;
- the loader's output;
- the facet sets;
- filter membership and commutation;
- cursor arithmetic;
- sorting.

Three things are parameters rather than queries:

- "today": `chrono::Local::now()` becomes an argument of `MarkSelectedTaskComplete` and
  `ExitEditMode`.
- The lines of the todo file: an argument of `ReadTasks`.
- The text typed in edit mode: an argument of `ExitEditMode`.

Saving returns its lines instead of writing a file.

### Behaviour worth knowing

- **Two leading dates.** The first date becomes the completion date and the second the creation
  date, as `TaskParser::next` assigns them (`parse.rs` lines 135-139). This is the todo.txt
  convention for completed tasks: `x <completed> <created> description`.
- **Tasks without a priority sort first.** The derived `Ord` puts `None` before `Some(_)`, and
  `(A)` before `(B)` (`Application.SortByPriority`).
- **Facet lists ignore the completed toggle.** They are collected over the whole task vector,
  sentinel included, with `include_completed = true`, as `get_*_items` do.
- **Sort moves the sentinel.** Sort orders the whole vector, index 0 included, so the `[new]`
  sentinel does not stay first. `Application.SortDisplacesFirst` and
  `Application.SortMovesSentinel` state this. Since `filter_tasks` and `save` both skip index 0,
  the real task that took that slot is hidden and is not saved, while the `[new]` line is
  (`Application.SortThenSaveLosesTask`).
- **Deleting the last row can clear the cursor.** After a deletion the old cursor row is
  reselected with `select`, which clears the cursor when the row is now out of range. An edit
  started before the cursor is moved again reaches the `unwrap` in `exit_edit_mode` with no
  cursor; the model requires a cursor there. `Application.App.RemoveTask` leaves the cursor given
  by `KeptCursor` of the old row and of the task that row now names, and
  `Application.DeletedLastRowClearsCursor` shows that this is no cursor when the only shown task
  is deleted.

## Model

| member | source | states |
|---|---|---|
| TaskModel.Render | crates/todo_txt/src/task.rs:22-38 | `Display::fmt`: `x ` when completed, `(P) ` for a priority, the completion date and the creation date each followed by a space, then the description |
| TaskModel.RenderIsPrefixThenDescription | crates/todo_txt/src/task.rs:22-38 | A rendered line is `x `, `(P) `, the completion date and the creation date, each present only when its field is set and each followed by one space, then the description verbatim |
| TaskModel.Tags | crates/todo_txt/src/task.rs:62-70 | The tags of a token list for one sigil: each token starting with the sigil gives the rest of that token, in token order |
| TaskModel.WithDescription | crates/todo_txt/src/task.rs:58-71 | The task `set_description` leaves: the new description, with the `@` tags of its tokens appended to the contexts and the `+` tags to the projects |
| TaskModel.SetDescription | crates/todo_txt/src/task.rs:58-71 | The loop over the description's tokens leaves the task with the new description. The tags of the `@`/`+` tokens are appended, in token order and with the sigil stripped, to the existing contexts/projects. No other field changes |
| TaskModel.TagsMembers | crates/todo_txt/src/task.rs:60-70 | A string is a collected tag exactly when some token starts with the sigil and the rest of that token is the string |
| TaskModel.TagsAppend | crates/todo_txt/src/task.rs:62-70 | Tag collection over a concatenation of token lists is the concatenation, so order and duplicates are kept |
| TaskModel.TagsDisjoint | crates/todo_txt/src/task.rs:63-69 | No single token yields both a context and a project, so the context and project counts together never exceed the token count |
| TaskModel.TaskLess | crates/todo_txt/src/task.rs:10-20 | The derived `Ord`: lexicographic over completed, priority, completion date, creation date, description, contexts, projects, with `false` before `true` and `None` before `Some` |
| TaskModel.TaskLessIrreflexive | crates/todo_txt/src/task.rs:10-20 | The derived lexicographic order on (completed, priority, completion date, creation date, description, contexts, projects) is irreflexive |
| TaskModel.TaskLessTotal | crates/todo_txt/src/task.rs:10-20 | Any two different tasks are ordered one way or the other |
| TaskModel.TaskLessAsymmetric | crates/todo_txt/src/task.rs:10-20 | No two tasks are each below the other |
| TaskModel.TaskLessTransitive | crates/todo_txt/src/task.rs:10-20 | The derived order is transitive |
| TaskModel.SortTasks | crates/app/src/app.rs:157-159 | `sort` is a permutation of its input |
| TaskModel.SortTasksSorted | crates/app/src/app.rs:157-159 | The result of `sort` is in ascending task order |
| TaskModel.SortedUnique | crates/app/src/app.rs:157-159 | Two sorted permutations of the same tasks are equal, so a stable or unstable sort gives the same vector |
| TaskModel.SortIsSortedPermutation | crates/app/src/app.rs:157-159 | Whatever sorted permutation of the tasks one exhibits is the result of the sort: the sorted order is determined by the multiset of tasks |
| Parse.Lex | crates/todo_txt/src/parse.rs:29-41 | The token `x` is Complete. A token of `(`, one letter `A`-`Z` and `)` is a priority of that letter. A token that parses as a `%Y-%m-%d` date is a Date. Anything else is a Word holding the token. The checks are tried in that order |
| Parse.LexDate | crates/todo_txt/src/parse.rs:29-41 | A token that parses as a date is lexed as a date mark carrying that date |
| Parse.Next | crates/todo_txt/src/parse.rs:102-142 | Listed transitions only move forward and never on a Word; every other pair enters InDescription and leaves the task alone. `completed` changes only on `x` from Start; the priority changes only from Start or PastCompletion. Entering PastDate1 sets the creation date to the token's date; entering PastDate2 moves the creation date to the completion date and sets the creation date to the token's date. The description and tags are untouched |
| Parse.Run | crates/todo_txt/src/parse.rs:79-99 | The token loop of `parse_line`: step the machine on each lexed token; on entering the description state, the current token and the rest joined by single spaces and trimmed become the description, and the loop stops |
| Parse.ParseLine | crates/todo_txt/src/parse.rs:77-99 | `parse_line`: run the loop over the line's whitespace-separated tokens from the start state and the default task; none when the machine never left the start state |
| Parse.FromStr | crates/todo_txt/src/task.rs:40-51 | `from_str` is `Err(ParseTaskError)` exactly when `parse_line` returns `None`, and otherwise yields the parsed task |
| Parse.RunLeavesStart | crates/todo_txt/src/parse.rs:79-99 | Once any token is consumed the machine is out of Start |
| Parse.ParseFailsIffBlank | crates/todo_txt/src/parse.rs:79-99 | `parse_line` returns `None` exactly when the line has no whitespace-separated tokens, i.e. exactly when the trimmed line is empty |
| Parse.FieldsFromFirstFiveTokens | crates/todo_txt/src/parse.rs:81-93 | The loop stops at InDescription, so the structured fields of a line depend on its first five tokens only |
| Parse.RunDescription | crates/todo_txt/src/parse.rs:81-93 | From any state before InDescription, the description is the single-spaced join of the tokens from the one that first enters InDescription onwards. At most 4 - rank tokens are consumed before it. The suffix is empty when no token enters that state |
| Parse.DescriptionIsTail | crates/todo_txt/src/parse.rs:83-91 | A parsed line's description is the token on which the machine first enters the description state, followed by all later tokens, joined by single spaces. At most four prefix tokens come before it, none of which enters that state. The description is empty exactly when the prefix consumes every token |
| Parse.TwoLeadingDates | crates/todo_txt/src/parse.rs:113-139 | A line starting with two dates parses with the first as completion date and the second as creation date, whatever the completion flag |
| Parse.RunTwoDates | crates/todo_txt/src/parse.rs:113-139 | After the prefix, two date tokens in a row make the first the completion date and the second the creation date, and parsing goes on with the description |
| Parse.ParseRender | crates/todo_txt/src/task.rs:22-38 | Parsing the rendering of a task in canonical form gives the task back |
| Parse.ParsedIsCanonical | crates/todo_txt/src/parse.rs:77-142 | Every parsed task is in canonical form: a completion date only with a creation date, a description whose first word is not a prefix token, and tags equal to those of the description |
| Parse.RoundTrip | crates/todo_txt/src/task.rs:22-51 | For any task obtained from `from_str`, `from_str` of its rendering returns the same task |
| Parse.ParseNewTask | crates/app/src/app.rs:59-66 | The sentinel line `[new]` parses to the default task with that description |
| Parse.NewTaskCanonicalText | crates/app/src/app.rs:63-66 | The sentinel task renders to a line that parses back to it, so saving it as row 0 loses nothing |
| Parse.ParseBlankLines | crates/todo_txt/src/parse.rs:95-96 | The empty line and a line of spaces do not parse |
| Parse.ParsePriorityLine | crates/todo_txt/src/parse.rs:109-112 | `(B) Call mom` parses to priority B with description `Call mom` |
| Parse.ParseCompletedLine | crates/todo_txt/src/parse.rs:105-139 | `x (A) 2024-01-02 2024-01-01 Buy milk @store +errands` parses to a completed A task completed 2024-01-02, created 2024-01-01, with context `store` and project `errands` |
| Parse.CompletedSampleRenders | crates/todo_txt/src/task.rs:22-38 | That task renders back to the same line |
| Dates.ParseDate | crates/todo_txt/src/parse.rs:35 | `NaiveDate::parse_from_str(s, "%Y-%m-%d")`: one to four year digits, a dash, one or two month digits, a dash, one or two day digits, and nothing else, accepted only when the date exists in the Gregorian calendar |
| Dates.FormatDate | crates/todo_txt/src/task.rs:30-35 | chrono's date `Display`: the year padded to four digits, the month and the day padded to two, separated by dashes |
| Dates.ParseFormat | crates/todo_txt/src/task.rs:30-35 | A date written as `YYYY-MM-DD` lexes back to the same date |
| Dates.FormatShape | crates/todo_txt/src/task.rs:30-35 | A written date is ten characters of digits and dashes |
| Ordering.StringLessTotal | crates/todo_txt/src/task.rs:17-19 | String order (the description's field in the derived order) is total |
| Ordering.StringLessTransitive | crates/todo_txt/src/task.rs:17-19 | String order is transitive |
| Ordering.StringsLessTotal | crates/todo_txt/src/task.rs:18-19 | Order on tag vectors (the contexts' and projects' fields) is total |
| Ordering.StringsLessTransitive | crates/todo_txt/src/task.rs:18-19 | Order on tag vectors is transitive |
| Ordering.StringsAscendingUnique | crates/todo_txt/src/tasks.rs:183-211 | A strictly ascending string sequence is determined by its elements, so each collector's result is unique |
| Tasks.TasksFilter.constructor | crates/todo_txt/src/tasks.rs:32-37 | `new` holds every task with indices `0..n` |
| Tasks.TasksFilter.Retain | crates/todo_txt/src/tasks.rs:63-131 | One narrowing step keeps exactly the aligned pairs whose task matches, preserving equal lengths, strictly increasing indices and `tasks[k] == source[indices[k]]` |
| Tasks.TasksFilter.WithContext | crates/todo_txt/src/tasks.rs:63-82 | `Some(c)` keeps exactly the entries whose contexts contain c; `None` leaves the filter unchanged |
| Tasks.TasksFilter.WithProject | crates/todo_txt/src/tasks.rs:84-103 | `Some(p)` keeps exactly the entries whose projects contain p; `None` leaves the filter unchanged |
| Tasks.TasksFilter.WithPriority | crates/todo_txt/src/tasks.rs:105-117 | `Some(p)` keeps exactly the entries with priority p; `None` leaves the filter unchanged |
| Tasks.TasksFilter.WithoutCompleted | crates/todo_txt/src/tasks.rs:119-131 | `true` keeps exactly the entries not completed; `false` leaves the filter unchanged |
| Tasks.TasksFilter.NumContexts | crates/todo_txt/src/tasks.rs:38-40 | The number of distinct contexts of the surviving tasks |
| Tasks.TasksFilter.NumProjects | crates/todo_txt/src/tasks.rs:42-44 | The number of distinct projects of the surviving tasks |
| Tasks.TasksFilter.NumPriorities | crates/todo_txt/src/tasks.rs:46-48 | The number of distinct priorities of the surviving tasks |
| Tasks.TasksFilter.CollectContexts | crates/todo_txt/src/tasks.rs:50-52 | The surviving tasks' distinct contexts, strictly ascending |
| Tasks.TasksFilter.CollectProjects | crates/todo_txt/src/tasks.rs:54-56 | The surviving tasks' distinct projects, strictly ascending |
| Tasks.TasksFilter.CollectPriorities | crates/todo_txt/src/tasks.rs:58-60 | The surviving tasks' distinct priorities, strictly ascending |
| Tasks.NarrowAligned | crates/todo_txt/src/tasks.rs:63-131 | A narrowing step keeps the two sequences aligned with the source |
| Tasks.NarrowMembers | crates/todo_txt/src/tasks.rs:63-131 | An index survives a narrowing step exactly when it survived before and its source task matches |
| Tasks.NarrowCommute | crates/todo_txt/src/tasks.rs:63-131 | Two narrowing steps in either order give the same tasks and indices |
| Tasks.FilterCommute | crates/todo_txt/src/tasks.rs:227-275 | Two predicate filters commute |
| Tasks.FilterSubsequence | crates/todo_txt/src/tasks.rs:32-131 | Narrowing a fresh filter yields the order-preserving filtered subsequence, with indices exactly those of matching tasks |
| Tasks.IncreasingUnique | crates/todo_txt/src/tasks.rs:63-131 | Strictly increasing index sequences with the same members are equal, so the final indices do not depend on the combinator order |
| Tasks.FilterMembers | crates/todo_txt/src/tasks.rs:227-275 | The filter keeps exactly the tasks that match |
| Tasks.FilterAppend | crates/todo_txt/src/tasks.rs:227-275 | Filtering distributes over concatenation: the filter preserves order |
| Tasks.IncludeCompleted | crates/todo_txt/src/tasks.rs:227-234 | Keeps exactly the tasks with `include_completed` or not completed; never longer than the input |
| Tasks.WithContext | crates/todo_txt/src/tasks.rs:236-250 | Keeps exactly the tasks having the context |
| Tasks.WithProject | crates/todo_txt/src/tasks.rs:252-266 | Keeps exactly the tasks having the project |
| Tasks.WithPriority | crates/todo_txt/src/tasks.rs:268-275 | Keeps exactly the tasks with that priority |
| Facets.TagSet | crates/todo_txt/src/tasks.rs:183-211 | The set the collectors' `HashSet` accumulates: the contexts (or projects) of every task that is eligible, i.e. `include_completed` or not completed |
| Facets.TagSetMembers | crates/todo_txt/src/tasks.rs:183-211 | A string is collected exactly when some eligible task lists it among its contexts (or projects) |
| Facets.PrioritySet | crates/todo_txt/src/tasks.rs:213-225 | The set of priorities of the eligible tasks that have one |
| Facets.PrioritySetMembers | crates/todo_txt/src/tasks.rs:213-225 | A letter is collected exactly when some eligible task (`include_completed` or not completed) has that priority |
| Facets.GatherTags | crates/todo_txt/src/tasks.rs:183-211 | The `HashSet` loop collects the tags of the eligible tasks |
| Facets.GatherPriorities | crates/todo_txt/src/tasks.rs:213-225 | The `HashSet` loop collects the priorities of the eligible tasks |
| Facets.SortStrings | crates/todo_txt/src/tasks.rs:193-194 | Sorting a set of strings gives a strictly ascending sequence with exactly those elements |
| Facets.SortChars | crates/todo_txt/src/tasks.rs:222-223 | Sorting a set of letters gives a strictly ascending sequence with exactly those elements |
| Facets.CollectContexts | crates/todo_txt/src/tasks.rs:183-196 | Strictly ascending, duplicate-free, exactly the contexts of the eligible tasks |
| Facets.CollectProjects | crates/todo_txt/src/tasks.rs:198-211 | Strictly ascending, duplicate-free, exactly the projects of the eligible tasks |
| Facets.CollectPriorities | crates/todo_txt/src/tasks.rs:213-225 | Strictly ascending, duplicate-free, exactly the priorities of the eligible tasks |
| Facets.NumContexts | crates/todo_txt/src/tasks.rs:147-157 | Equals the number of distinct eligible contexts, the length of `collect_contexts` |
| Facets.NumProjects | crates/todo_txt/src/tasks.rs:159-169 | Equals the number of distinct eligible projects, the length of `collect_projects` |
| Facets.NumPriorities | crates/todo_txt/src/tasks.rs:171-181 | Equals the number of distinct eligible priorities, the length of `collect_priorities` |
| TodoTxt.Loaded | crates/todo_txt/src/lib.rs:12-24 | The tasks `read_tasks` collects: line by line, in order, nothing for a blank line or one that fails to parse, its parsed task otherwise |
| TodoTxt.ReadTasks | crates/todo_txt/src/lib.rs:12-24 | The loop's output is the loader function of the lines |
| TodoTxt.NonBlankLines | crates/todo_txt/src/lib.rs:15 | The lines kept are never whitespace-only and never more than the input |
| TodoTxt.LoadedParsesNonBlank | crates/todo_txt/src/lib.rs:13-23 | The tasks are, in input order, the parses of the non-blank lines: every non-blank line yields a task |
| TodoTxt.LoadedLength | crates/todo_txt/src/lib.rs:13-23 | Never more tasks than lines |
| TodoTxt.LoadedAppend | crates/todo_txt/src/lib.rs:13-23 | Reading continues after each line: loading concatenated lines concatenates the tasks |
| TodoTxt.LoadedLine | crates/todo_txt/src/lib.rs:15-20 | A single line gives no task exactly when blank, otherwise its parse |
| TodoTxt.LineTasks | crates/todo_txt/src/lib.rs:15-20 | One line contributes no task when it is blank or fails to parse, and exactly its parsed task otherwise |
| TodoTxt.LoadedCanonical | crates/todo_txt/src/lib.rs:12-24 | Every loaded task is in canonical form |
| TodoTxt.LoadedRoundTrip | crates/todo_txt/src/lib.rs:12-24 | Each loaded task, rendered and loaded again, is the same task |
| Selection.NextPosition | crates/app/src/selection_list.rs:33-45 | `next` goes from `i` to `i+1`, from the last item or from no selection to 0, always within the list |
| Selection.PreviousPosition | crates/app/src/selection_list.rs:47-59 | `previous` goes from `i` to `i-1`, from 0 to the last item, from no selection to 0, always within the list |
| Selection.PreviousAfterNext | crates/app/src/selection_list.rs:33-59 | `previous` undoes `next` on a valid cursor |
| Selection.NextAfterPrevious | crates/app/src/selection_list.rs:33-59 | `next` undoes `previous` on a valid cursor |
| Selection.NextTimesWraps | crates/app/src/selection_list.rs:33-45 | k steps of `next` add k modulo the length |
| Selection.PreviousTimesWraps | crates/app/src/selection_list.rs:47-59 | k steps of `previous` subtract k modulo the length |
| Selection.FullCycle | crates/app/src/selection_list.rs:33-59 | `len` steps either way return to the start |
| Selection.Clamped | crates/app/src/selection_list.rs:61-71 | An in-range selection is kept; anything else becomes none |
| Selection.SelectionList.WithItems | crates/app/src/selection_list.rs:26-31 | `with_items` selects 0, or nothing on an empty list |
| Selection.SelectionList.Next | crates/app/src/selection_list.rs:33-45 | The cursor moves as `NextPosition`; items are a constant field |
| Selection.SelectionList.Previous | crates/app/src/selection_list.rs:47-59 | The cursor moves as `PreviousPosition` |
| Selection.SelectionList.Select | crates/app/src/selection_list.rs:61-71 | The cursor becomes the clamped selection |
| Selection.SelectionList.Unselect | crates/app/src/selection_list.rs:73-75 | The cursor becomes none |
| Application.LeftUndoesRight | crates/app/src/app.rs:341-383 | `navigate_left` is the inverse of `navigate_right` |
| Application.FourRightsAreIdentity | crates/app/src/app.rs:341-361 | The focus cycles through four distinct panes |
| Application.Restrictions | crates/app/src/app.rs:218-232 | The combinators `filter_tasks` applies, in its order: `without_completed` when completed tasks are hidden, then `with_project`, `with_context` and `with_priority` for each active selection |
| Application.FilteredItems | crates/app/src/app.rs:218-232 | The rows of the task list `filter_tasks` builds: 0 for the sentinel, then one more than each surviving index of `tasks[1..]` |
| Application.Then | crates/app/src/app.rs:218-232 | A criterion is in the list exactly when its facet is active |
| Application.PassesIff | crates/app/src/app.rs:218-232 | A task meets all active criteria exactly when it passes the completed toggle and the selected project, context and priority |
| Application.RestrictionsMembers | crates/app/src/app.rs:218-232 | A filter combinator is applied exactly when its selection is active: `without_completed` when completed tasks are hidden, and `with_project`, `with_context` and `with_priority` with the selected value when a project, context or priority is selected |
| Application.ChainMembers | crates/app/src/app.rs:218-232 | Applying the chain of combinators keeps alignment, and an index survives exactly when it was present and its task matches every criterion |
| Application.SurvivorsMembers | crates/app/src/app.rs:218-232 | Survivors increase, stay inside the vector, and are exactly the tasks that pass |
| Application.FilteredItemsShape | crates/app/src/app.rs:218-232 | The task rows are 0 followed by the shifted survivors of `tasks[1..]`: they start at 0, strictly increase, stay below the task count, and a row j > 0 is present exactly when task j passes |
| Application.Position | crates/app/src/app.rs:240-263 | `iter().position` returns the first index holding the value, or none when absent |
| Application.Reselected | crates/app/src/app.rs:238-264 | A facet cursor that was on a value moves to that value's new position, or to none when it vanished; no previous value selects `[all]` |
| Application.KeptCursor | crates/app/src/app.rs:266-288 | The task cursor is forced to 0 whenever the previously selected task's priority differs from the selected priority or it lacks the selected context or project. When there was no selected task, or it still matches all three, the old row is kept if it is in range and cleared otherwise |
| Application.DeletedLastRowClearsCursor | crates/app/src/app.rs:266-288 | When the list is down to the sentinel row, the old cursor row 1 is cleared, not moved to row 0, whether or not a still-matching task was selected |
| Application.Lettered | crates/app/src/app.rs:211-216 | The priority facet string is exactly the one-letter string of the priority |
| Application.SelectedItem | crates/app/src/app.rs:130-135 | The selected item is present exactly when the cursor is on a row past `[all]`, and it is that row's item |
| Application.MarkedComplete | crates/app/src/app.rs:166-173 | The task becomes completed; its completion date becomes today only when it has a creation date; nothing else changes |
| Application.MarkedCompleteCanonical | crates/app/src/app.rs:166-173 | Completing a canonical task keeps it canonical, so it still renders and parses back |
| Application.StampedCanonical | crates/app/src/app.rs:436-440 | Stamping today as creation date keeps a parsed task canonical |
| Application.SortDisplacesFirst | crates/app/src/app.rs:157-159 | Whenever some later task is below the sentinel, sorting moves the sentinel off index 0 |
| Application.SortMovesSentinel | crates/app/src/app.rs:157-159 | Sorting `[new]` and `Buy milk` puts `Buy milk` at index 0 |
| Application.SortThenSaveLosesTask | crates/app/src/app.rs:137-159 | Sorting `[new]` and `Buy milk` and then saving writes only the rendering of `[new]`: the real task is lost |
| Application.SortByPriority | crates/app/src/app.rs:157-159 | Sorting B, A and no-priority tasks gives no-priority, A, B |
| Application.ThreeReversed | crates/app/src/app.rs:157-159 | Sorting three tasks given in strictly descending order reverses them |
| Application.SaveLines | crates/app/src/app.rs:137-149 | One rendered line per task after the sentinel |
| Application.SaveReadsBack | crates/app/src/app.rs:137-149 | Loading the saved lines of canonical tasks gives back `tasks[1..]` |
| Application.Sentinel | crates/app/src/app.rs:63-66 | The sentinel parsed from `[new]` is the default task with that description |
| Application.GetTaskItems | crates/app/src/app.rs:95-98 | The task rows are all indices `0..|tasks|`, in order |
| Application.GetContextItems | crates/app/src/app.rs:101-107 | `[all]` followed by the ascending distinct contexts of all tasks |
| Application.GetProjectItems | crates/app/src/app.rs:110-116 | `[all]` followed by the ascending distinct projects of all tasks |
| Application.GetPriorityItems | crates/app/src/app.rs:119-128 | `[all]` followed by the ascending distinct priority letters of all tasks |
| Application.RunFilter | crates/app/src/app.rs:218-231 | The combinator chain yields exactly the survivors specified by `Survivors` |
| Application.FilteredList | crates/app/src/app.rs:218-232 | `filter_tasks` builds a fresh task list whose rows are the sentinel row and the rows of the tasks passing the filters, with the cursor on row 0; every row names a task |
| Application.App.constructor | crates/app/src/app.rs:63-92 | Tasks are the sentinel followed by the inputs; unfiltered task rows with cursor 0; each facet list `[all]` plus the collected values, cursor 0; Normal mode, Tasks focus, completed tasks omitted; loaded tasks stay persistable |
| Application.App.SelectedContext | crates/app/src/app.rs:203-205 | The selected context is present exactly when the cursor is past `[all]` |
| Application.App.SelectedProject | crates/app/src/app.rs:207-209 | The selected project is present exactly when the cursor is past `[all]` |
| Application.App.SelectedPriority | crates/app/src/app.rs:211-216 | The selected priority is the first letter of the selected priority item |
| Application.App.SelectedTaskListIdx | crates/app/src/app.rs:175-180 | The task row is present exactly when the cursor is past the sentinel row |
| Application.App.SelectedTaskIdx | crates/app/src/app.rs:182-187 | The task index is the row's item, present exactly when the row is in range |
| Application.App.SelectedTask | crates/app/src/app.rs:189-201 | The selected task is `tasks[index]`, present exactly when the index is in range |
| Application.App.FilterTasks | crates/app/src/app.rs:218-232 | New task rows are the filtered items for the current toggle and facet selections, cursor 0; facet lists untouched |
| Application.App.UpdateStateAfterEdit | crates/app/src/app.rs:234-289 | Facet lists are rebuilt and their cursors reselected; the task rows are refiltered and the cursor restored by `KeptCursor` |
| Application.App.RebuildContexts | crates/app/src/app.rs:238-243 | The context list is rebuilt from the tasks. Its cursor goes to the previously selected context if that context is still listed, and nothing else changes |
| Application.App.RebuildProjects | crates/app/src/app.rs:245-251 | The same for the project list and the previously selected project |
| Application.App.RebuildPriorities | crates/app/src/app.rs:253-264 | The same for the priority list, whose rows are the one-letter strings of the priorities |
| Application.App.RestoreCursor | crates/app/src/app.rs:266-288 | After the task list is regenerated, the old cursor row is kept unless the previously selected task no longer matches the priority, context or project in force, in which case the cursor returns to row 0 |
| Application.App.NavigateUp | crates/app/src/app.rs:291-314 | In Normal mode the focused list's cursor moves as `previous`, refiltering on a facet pane; outside Normal nothing changes |
| Application.App.NavigateDown | crates/app/src/app.rs:316-339 | In Normal mode the focused list's cursor moves as `next`, refiltering on a facet pane; outside Normal nothing changes |
| Application.App.NavigateRight | crates/app/src/app.rs:341-361 | In Normal mode the focus moves right in the cycle; otherwise nothing changes |
| Application.App.NavigateLeft | crates/app/src/app.rs:363-383 | In Normal mode the focus moves left in the cycle; otherwise nothing changes |
| Application.App.ToggleCompleted | crates/app/src/app.rs:161-164 | Flips the toggle (two calls restore it) and refilters |
| Application.App.MarkSelectedTaskComplete | crates/app/src/app.rs:166-173 | Only the selected real task is marked complete; with the sentinel or no task selected nothing changes |
| Application.App.SortTasks | crates/app/src/app.rs:157-159 | The whole vector, sentinel included, becomes a sorted permutation; lists are not refiltered |
| Application.App.ConfirmAction | crates/app/src/app.rs:385-398 | Acts only in Confirm mode and then returns to Normal: Save yields the saved lines, which load back as `tasks[1..]`; Sort sorts |
| Application.App.CancelAction | crates/app/src/app.rs:400-402 | Returns to Normal; nothing else changes |
| Application.App.EnterConfirmMode | crates/app/src/app.rs:404-406 | Enters Confirm with the action; nothing else changes |
| Application.App.EnterEditMode | crates/app/src/app.rs:409-416 | Enters Edit and returns the selected task's rendering, or empty text |
| Application.App.EnterHelpMode | crates/app/src/app.rs:450-452 | Enters Help; nothing else changes |
| Application.App.ExitHelpMode | crates/app/src/app.rs:454-456 | Returns to Normal; nothing else changes |
| Application.App.RemoveTask | crates/app/src/app.rs:428-431 | Removes exactly one real task and rebuilds the lists. Each facet cursor goes to the new position of the value it held. The task cursor is the old row, kept or forced to 0 by `KeptCursor` according to the task that row names after the removal, and cleared when the row no longer exists |
| Application.App.AppendTask | crates/app/src/app.rs:436-440 | Appends exactly one task and rebuilds the lists. Each facet cursor goes to the new position of the value it held, and the task cursor is row 0 |
| Application.App.ReplaceTask | crates/app/src/app.rs:441-444 | Replaces exactly one real task in place and rebuilds the lists. The facet cursors are reselected and the task cursor is restored as after a removal |
| Application.App.ExitEditMode | crates/app/src/app.rs:418-448 | Always ends in Normal. No input changes nothing. Empty text deletes the selected real task, or does nothing on the sentinel row. A parse failure only sets the error message. A parse on the sentinel row appends the task stamped with today. A parse on a real row replaces that task. After every successful edit the facet cursors are reselected on their old values, and the task cursor is row 0 after an append and is restored by `KeptCursor` after a deletion or replacement. Persistability is kept |
| Application.App.ApplyEdit | crates/app/src/app.rs:424-447 | Empty text deletes the task under the cursor, except on row 0 where nothing changes. Text that fails to parse sets the error message and changes nothing else. Parsed text on row 0 appends the task with today as its creation date and puts the cursor on row 0. Parsed text on another row replaces the task there. Every successful edit rebuilds the lists and reselects the facet cursors on their old values. The task cursor is row 0 after an append and is restored by `KeptCursor` after a deletion or replacement. Saving still reads back |
| Application.App.CommitEdit | crates/app/src/app.rs:437-445 | A parsed task is appended with today's creation date when the cursor is on row 0, or replaces the task under the cursor. Either way the lists are rebuilt, the facet cursors are reselected on their old values and every task still renders to a line that parses back to it. After a replacement the task cursor is restored by `KeptCursor`, and after an append it is row 0 |

## Left out

- Saving: file creation, `writeln!` and `process::exit` (app.rs 137-149) are I/O. Save is modelled as `SaveLines`, the rendered `tasks[1..]` it would write.
- The frame timing fields and methods (`frame_time`, `start_frame`, `end_frame`) are floating-point telemetry and are omitted; so are `title`, `filepath` and `should_quit`, which the engine never reads.
- `chrono::Local::now()` is replaced by a `today` parameter.
- The clock, the file and the terminal are not modelled; the lines of the file and the edit text are parameters.
- The regex crate and `lazy_static`: the priority pattern is a direct three-character check.
- `HashSet` and `sort_unstable` in the collectors: modelled as a Dafny set and a selection sort that repeatedly extracts the minimum; the result is the same because the ascending sequence of a set is unique.
- Dates: chrono's `%Y` also accepts signed years, which may have more than four digits; the model reads unsigned years of one to four digits only.
- `println!` diagnostics in the loader and `line.unwrap()` over `std::io::Lines` are I/O; the input is a sequence of lines.
- `tasks.rs::read` is identical to `lib.rs::read_tasks` and is modelled once, as `TodoTxt.ReadTasks`.
- The commented-out default transition in `parse.rs` (lines 144-161) is not code and is not modelled.
- The ui, kdo and vdo crates (drawing, terminal event loop, command line) and the test-data generator are not part of this model.
- Panics become preconditions: `exit_edit_mode` unwraps the task cursor, so `ExitEditMode` requires a cursor when text is given.
- Selection.SelectionList.Next and Selection.SelectionList.Previous require a non-empty list: on an empty list, from the initial `None` cursor, `next` and `previous` set the cursor to `Some(0)`, one past the end (a second call would underflow `len() - 1`), and the model excludes that out-of-range cursor. Every list the controller holds has at least its header row.
- TaskModel.SortTasks: insertion sort stands in for Rust's stable merge sort; `SortedUnique` shows any sort of the same tasks gives the same vector, so stability is not stated separately.
