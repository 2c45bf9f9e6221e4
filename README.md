# streamcoder core, modelled in Dafny

streamcoder is a Streamlit app. It lets a user browse their GitHub
repositories, ask an LLM for code, and run that code on a "sandbox" page. It
also ships two snake games. Most of the app is glue around Streamlit, PyGithub
and the LLM SDKs. This project models the five places where the app has its
own logic:

- `grid_snake.dfy` (module `GridSnake`) models the snake page
  `pages/code_output.py`. Its state lives in the session: a snake of cells on
  a 20 x 20 torus, a food cell, a direction name, a score and a game-over flag.
  The class `Game` holds these fields. Its methods `MoveSnake`, `Press`,
  `Restart` and `Run` update the fields in place. Each method is proved
  against a pure step function (`Moved`, `Steer`, `Initial`, `Rerun`). The
  lemmas prove the page's invariant: every cell is on the grid, the cells are
  pairwise distinct, and `score == |snake| - 1`.
- `pygame_snake.dfy` (module `PygameSnake`) models the second game,
  `code_output.py`:
  - a `Snake` class with `Move`, `Grow` and `CheckCollision`;
  - a `Game` class holding the module globals, with `GameLoop`, `Restart` and
    `Press`.

  Its quirks are kept as written. `move` never drops the tail, so the snake
  grows every step. `grow` appends a copy of the last cell, so eating always
  ends the game, and the score never exceeds one.
- `sandbox_filter.dfy` (module `SandboxFilter`) models the line filter that
  the sandbox page applies before `exec`. The code is split on `"\n"`. Every
  line whose stripped form starts with `"import streamlit"` is dropped, and
  the rest is joined with `"\n"`. The model covers Python's `str.split`,
  `str.strip` (with the full `str.isspace` set), `startswith`, the list
  comprehension and `'\n'.join`.
- `session_defaults.dfy` (module `SessionDefaults`) models
  `initialize_session_state`. It is a loop that writes the eight listed
  defaults into the session-state map, but only for keys that are missing.
- `repo_listing.dfy` (module `RepoListing`) models `list_repos`, `get_repo`
  and the worklist traversal of `list_files`. The GitHub client is abstracted
  as data: the user's login, the repositories the user can see (each with its
  owner), and for each repository a finite tree of
  `get_contents` answers. A listing that raises the client's exception is
  `Fails`. `ListFiles` is the `while contents:` loop. It is proved equal to
  `Drain`, a recursive definition that terminates on the total size of the
  worklist. `Drain` is then related to the depth-first flattening of the tree
  and to the breadth-first order.

Python's `%` with a positive divisor gives the same result as Dafny's `%`
(both lie in `[0, divisor)`), so the wrap-around is written with `%` directly.
Every random draw (`random.randint`, `random.choice`) is a parameter of the
operation that would make it. A requires clause says the value is on the grid
or is one of the four unit vectors.

`pages/sandbox.py` has no import allow-list, timeout or output cap; the only
step between the fetched code and `exec` is the line filter at lines 35-37.

## Model

| member | source | states |
|---|---|---|
| GridSnake.NextHead | pages/code_output.py:32-40 | from a head on the grid, the new head is on the grid, one cell away (wrapping at the edges), and not the old head |
| GridSnake.UnknownDirectionMovesRight | pages/code_output.py:39-40 | any direction name other than UP, DOWN and LEFT moves the head right, wrapping from x = 19 to x = 0 |
| GridSnake.WrapAround | pages/code_output.py:33-40 | moving off any cell of each of the four edges re-enters at the opposite edge, in the same row or column |
| GridSnake.Initial | pages/code_output.py:12-21 | definition of the starting state (also the state Restart sets at lines 91-96); its properties are proved in `InitialInv` and `GameOverFreezes` |
| GridSnake.Moved | pages/code_output.py:31-53 | definition of one `move_snake` call on the session state; its properties are proved in `MovedInv`, `MovedHit`, `TailCellIsHit`, `MovedSlides` and `MovedEats` |
| GridSnake.Rerun | pages/code_output.py:56-96 | definition of one run of the page; its properties are proved in `RerunInv` and `GameOverFreezes` |
| GridSnake.InitialInv | pages/code_output.py:12-21 | a new session holds the single cell (10, 10), heading RIGHT, score 0, not over, and satisfies the invariant |
| GridSnake.Game.constructor | pages/code_output.py:12-21 | the session fields start as the initial state, with the drawn food cell, and satisfy the invariant |
| GridSnake.Game.MoveSnake | pages/code_output.py:31-53 | the in-place update of snake, food, score and game_over equals the step `Moved` and keeps the invariant |
| GridSnake.MovedInv | pages/code_output.py:34-53 | a move keeps every cell on the grid, the cells pairwise distinct, the score equal to the length less one, and the food on the grid |
| GridSnake.MovedHit | pages/code_output.py:43-44 | when the new head is already a segment, only game_over changes (to true); snake, food and score stay |
| GridSnake.TailCellIsHit | pages/code_output.py:43-53 | moving into the cell the tail occupies ends the game, because the hit test comes before the tail is dropped |
| GridSnake.MovedSlides | pages/code_output.py:46-53 | without hit or food the length is unchanged, the new head is in front, every segment moves up one place, and score and food stay |
| GridSnake.MovedEats | pages/code_output.py:46-51 | on food the snake gains exactly one cell in front of the old body, the score rises by exactly one, and the new food is on the grid |
| GridSnake.Steer | pages/code_output.py:71-85 | a button press yields either the old direction or the pressed one, and keeps the direction one of the four names |
| GridSnake.SteerRules | pages/code_output.py:71-85 | UP is refused exactly when heading DOWN, LEFT when RIGHT, RIGHT when LEFT, DOWN when UP; otherwise the pressed direction is taken |
| GridSnake.SteerNeverReverses | pages/code_output.py:71-85 | a step in the old direction followed by a step in the steered direction never returns to the starting cell |
| GridSnake.Game.Press | pages/code_output.py:71-85 | a press changes only the direction, to the steered one, and keeps the invariant |
| GridSnake.Game.Restart | pages/code_output.py:91-96 | Restart sets every field to the initial state, with the drawn food cell |
| GridSnake.Game.Run | pages/code_output.py:56-96 | one run of the page equals `Rerun`: move then apply the arrow while the game is on; only Restart acts once it is over |
| GridSnake.RerunInv | pages/code_output.py:56-96 | every run of the page keeps the invariant |
| GridSnake.GameOverFreezes | pages/code_output.py:56-96 | once the game is over, a run without Restart changes nothing; Restart restores exactly the initial state |
| PygameSnake.Advance | code_output.py:29-30 | the moved head is on the grid, for any head and direction |
| PygameSnake.ElementsCount | code_output.py:36-37 | the set of body cells is never larger than the list, and is as large exactly when no cell repeats |
| PygameSnake.Snake.constructor | code_output.py:22-25 | a new snake is the middle cell, heading in the direction drawn from the four unit vectors |
| PygameSnake.Snake.Move | code_output.py:27-31 | the body becomes the wrapped new head in front of the whole old body; the direction is unchanged |
| PygameSnake.Snake.Grow | code_output.py:33-34 | the body gains a copy of its last cell at the end |
| PygameSnake.Snake.CheckCollision | code_output.py:36-37 | true exactly when some cell occurs twice in the body |
| PygameSnake.ButtonVector | code_output.py:103-110 | every arrow assigns one of the four unit vectors |
| PygameSnake.Game.constructor | code_output.py:49-52 | the globals start as a new snake, the drawn food, score 0 and not over |
| PygameSnake.Game.GameLoop | code_output.py:61-76 | `game_loop` without drawing equals the step `Step` and keeps the invariant |
| PygameSnake.Game.Restart | code_output.py:92-98 | when the game is over, Restart installs a fresh snake and food with score 0 and not over; otherwise nothing changes |
| PygameSnake.Game.Press | code_output.py:102-110 | while the game is on, an arrow sets the pressed unit vector with no check against reversing; once it is over, nothing changes |
| PygameSnake.Moved | code_output.py:27-31 | definition of the body after `move`; its properties are proved in `MovedKeepsBody` |
| PygameSnake.Grown | code_output.py:33-34 | definition of the body after `grow`; its properties are proved in `GrownRepeats` |
| PygameSnake.Initial | code_output.py:49-52 | definition of the globals at start-up; its properties are proved in `InitialGlobals` |
| PygameSnake.Step | code_output.py:61-76 | definition of one `game_loop` call on the globals; its properties are proved in `StepWhenOver`, `StepScoresOnFood`, `EatingEndsGame`, `StepCollidesOnRevisit` and `StepInv` |
| PygameSnake.Steps | code_output.py:61-76 | definition of a run of successive `game_loop` calls; its properties are proved in `StepsInv` and `ScoreAtMostOne` |
| PygameSnake.InitialGlobals | code_output.py:12-25 | a new snake is the single cell (10, 10), and the initial globals satisfy the invariant |
| PygameSnake.MovedKeepsBody | code_output.py:27-31 | `move` adds exactly one cell, keeps the old body as the suffix, and keeps an in-grid body on the grid |
| PygameSnake.GrownRepeats | code_output.py:33-37 | `grow` adds one cell equal to the previous last one, so the grown body always has a repeat |
| PygameSnake.StepWhenOver | code_output.py:64 | a step of a finished game leaves snake, food, score and game_over unchanged |
| PygameSnake.StepScoresOnFood | code_output.py:69-76 | the score rises by one exactly when the moved head is on the food, and then the snake grows and the food is replaced; game_over after the step holds exactly when the new body has a repeat |
| PygameSnake.EatingEndsGame | code_output.py:69-76 | a step that eats always ends the game |
| PygameSnake.StepCollidesOnRevisit | code_output.py:27-37 | in a running game, a step without food ends the game exactly when the head moves onto a cell the body still holds |
| PygameSnake.StepInv | code_output.py:61-76 | every step keeps the body on the grid, the direction a unit vector, a running game free of repeats with score 0, and the score 0 or 1 |
| PygameSnake.StepsInv | code_output.py:61-76 | any run of `game_loop` calls from globals satisfying the invariant keeps it |
| PygameSnake.ScoreAtMostOne | code_output.py:49-76 | in a game started afresh, after any number of `game_loop` calls, the score is 0 or 1, and 1 only once the game is over |
| SandboxFilter.LStrip | pages/sandbox.py:36 | definition of `lstrip`; its properties are proved in `LStripSpec` and `LStripSkips` |
| SandboxFilter.RStrip | pages/sandbox.py:36 | definition of `rstrip`; its properties are proved in `RStripSpec` |
| SandboxFilter.Strip | pages/sandbox.py:36 | definition of `strip()` as `rstrip` after `lstrip`; its properties are proved in `StreamlitImportIgnoresTrailingSpace` |
| SandboxFilter.IsStreamlitImport | pages/sandbox.py:36 | definition of the comprehension's test; its properties are proved in `StreamlitImportIgnoresTrailingSpace`, `IndentedImportMatches`, `LongerModuleNameMatches`, `FromImportIsKept` and `LaterImportIsKept` |
| SandboxFilter.Join | pages/sandbox.py:37 | definition of `'\n'.join`; its properties are proved in `JoinSplit` and `SplitJoin` |
| SandboxFilter.Kept | pages/sandbox.py:36 | definition of the comprehension with the streamlit test; its properties are proved in `FilterAppend`, `FilterMembers`, `FilterIdempotent` and `FilterNoMatch` |
| SandboxFilter.Clean | pages/sandbox.py:35-37 | definition of the whole filter, split then comprehension then join; its properties are proved in `CleanLines`, `CleanHasNoStreamlitImport`, `CleanNeverAddsLines`, `CleanWithoutMatches` and `CleanIdempotent` |
| SandboxFilter.LStripSpec | pages/sandbox.py:36 | `lstrip` removes a leading run of whitespace, all of it, and keeps the rest as a suffix |
| SandboxFilter.RStripSpec | pages/sandbox.py:36 | `rstrip` removes a trailing run of whitespace, all of it, and keeps the rest as a prefix |
| SandboxFilter.LStripSkips | pages/sandbox.py:36 | `lstrip` of a string with exactly k leading whitespace characters is the string from index k |
| SandboxFilter.StreamlitImportIgnoresTrailingSpace | pages/sandbox.py:36 | a line is dropped exactly when, after its leading whitespace, it starts with "import streamlit" |
| SandboxFilter.IndentedImportMatches | pages/sandbox.py:36 | "    import streamlit as st" is dropped |
| SandboxFilter.LongerModuleNameMatches | pages/sandbox.py:36 | "import streamlit_x" is dropped: the test is a prefix test |
| SandboxFilter.FromImportIsKept | pages/sandbox.py:36 | "from streamlit import x" is kept |
| SandboxFilter.LaterImportIsKept | pages/sandbox.py:36 | a line with the import after other code is kept |
| SandboxFilter.Split | pages/sandbox.py:35 | `split('\n')` yields at least one piece, and no piece contains a newline |
| SandboxFilter.JoinSplit | pages/sandbox.py:35-37 | joining the pieces of a split gives back the original text |
| SandboxFilter.SplitJoin | pages/sandbox.py:35-37 | splitting the join of newline-free lines gives back those lines |
| SandboxFilter.Filter | pages/sandbox.py:36 | the comprehension never yields more lines than it is given |
| SandboxFilter.FilterAppend | pages/sandbox.py:36 | filtering distributes over concatenation, so the kept lines stay in their original order |
| SandboxFilter.FilterMembers | pages/sandbox.py:36 | a line is in the result exactly when it is in the input and fails the test |
| SandboxFilter.FilterIdempotent | pages/sandbox.py:36 | filtering the result again changes nothing |
| SandboxFilter.FilterNoMatch | pages/sandbox.py:36 | when no line matches, every line is kept |
| SandboxFilter.CleanLines | pages/sandbox.py:35-37 | the lines of the cleaned code are exactly the kept input lines, in order; when every line was dropped the cleaned code is "" |
| SandboxFilter.CleanHasNoStreamlitImport | pages/sandbox.py:35-37 | no line of the cleaned code, once stripped, starts with "import streamlit" |
| SandboxFilter.CleanNeverAddsLines | pages/sandbox.py:35-37 | the cleaned code never has more lines than the input |
| SandboxFilter.CleanWithoutMatches | pages/sandbox.py:35-37 | when no line matches, the cleaned code equals the input text |
| SandboxFilter.CleanIdempotent | pages/sandbox.py:35-37 | cleaning cleaned code changes nothing |
| SessionDefaults.Initialized | utils.py:19-21 | definition of the state after the loop, the defaults overridden by every key already present; its properties are proved in `InitializeSessionState`, `InitializedKeys`, `InitializedValues`, `InitializedIdempotent` and `InitializedTouchesOnlyListedKeys` |
| SessionDefaults.KeyOrderCoversDefaults | utils.py:9-19 | the loop visits exactly the keys of `keys_defaults` |
| SessionDefaults.InitializeSessionState | utils.py:5-21 | the map after the loop is the old map with every missing listed key set to its default |
| SessionDefaults.InitializedKeys | utils.py:19-21 | afterwards the keys are the old keys together with the eight listed ones, all present |
| SessionDefaults.InitializedValues | utils.py:20-21 | a key already present keeps its value, even a falsy one; a missing listed key gets exactly its default |
| SessionDefaults.DefaultValues | utils.py:9-18 | the listed defaults: authenticated is False; github_token, selected_repo, selected_file, file_content and sandbox_code are ""; g is None; selected_llm is "Sonnet-3.5"; there are eight keys |
| SessionDefaults.InitializedExamples | utils.py:9-21 | an empty session becomes exactly the defaults; a stored selected_llm or authenticated value survives |
| SessionDefaults.InitializedIdempotent | utils.py:19-21 | initialising twice equals initialising once |
| SessionDefaults.InitializedTouchesOnlyListedKeys | utils.py:9-21 | a key outside the eight is neither added, changed nor removed |
| RepoListing.ListRepos | github_ops.py:64-71 | the empty entry first, then the repository names in client order; [] when the client fails |
| RepoListing.GetRepo | github_ops.py:20-28 | a found repository is owned by the user's login and has the requested name; None exactly when the user owns no repository of that name |
| RepoListing.ListedReposAreFound | github_ops.py:21 | a name that `list_repos` offers for a repository the user owns is found by `get_repo` |
| RepoListing.OrganisationRepoNotFound | github_ops.py:21 | a listed organisation repository with no same-named repository of the user's is not found, so `list_files` returns []; when the user owns one of that name, that one is found instead |
| RepoListing.Drain | github_ops.py:90-98 | definition of what draining the worklist yields; its properties are proved in `ListFiles`, `DrainIsFlatten` and `DrainLevels` |
| RepoListing.ListFilesResult | github_ops.py:84-102 | definition of the result of `list_files`; its properties are proved in `ListFiles`, `ListFilesIsTreeFiles` and `ListFilesExample` |
| RepoListing.ListFiles | github_ops.py:73-102 | the worklist loop returns `ListFilesResult`: [] for an empty name, a missing repository or any failed listing, otherwise what `Drain` yields |
| RepoListing.DrainIsFlatten | github_ops.py:92-98 | draining fails exactly when a reachable directory listing fails; otherwise it yields every reachable non-directory path as often as it is reachable, and nothing else |
| RepoListing.DrainLevels | github_ops.py:90-95 | breadth-first order: the worklist's own non-directory paths come first, in order, followed by the drain of its directories' listings |
| RepoListing.ListFilesIsTreeFiles | github_ops.py:84-102 | [] for an empty name, an unknown repository, a failed root or any failed listing below; otherwise the result holds the tree's file paths, and no directory |
| RepoListing.ListFilesExample | github_ops.py:90-98 | on a root holding directory `src` (with `src/b.py`) and then `a.py`, the result is `a.py` followed by `src/b.py` |

## Left out

- Rendering is not modelled, because it is drawing only: the emoji board and score text of `pages/code_output.py`, and the pygame surface, rectangles and `surfarray` image of `code_output.py`.
- The `time.sleep`/`st.rerun` loops and the `while True` frame loop are not modelled. The model gives one step per call (`Run`, `GameLoop`) instead.
- The random draws (`random.randint` for food, `random.choice` for the initial direction) are parameters. The model does not say which value is drawn.
- Streamlit re-runs `code_output.py` from the top on every interaction, which re-creates its module globals, and the `st.rerun()` at `code_output.py:119` ends each run after a single `game_loop` call. The running page therefore never calls `game_loop` twice on the same globals. The model treats the globals as persisting between calls: `Steps`, `StepsInv` and `ScoreAtMostOne` describe `game_loop` and the button handlers as the functions are written, not what the page does across reruns.
- The `Food` class of `code_output.py` is reduced to its position.
- GridSnake.Game.constructor: `pages/code_output.py:12-21` tests each session key separately. The model starts from a session where all five keys are missing; a partly initialised session is not modelled.
- RepoListing.GetRepo: the client's `get_user().get_repo(name)` becomes an exact-name lookup among the listed repositories owned by the user's login; an owned repository missing from `get_repos()` is not modelled. The model assumes this lookup call itself succeeds: in the source any `GithubException` (bad credentials or a rate limit, for example) also yields None (`github_ops.py:22-28`), and that failure is not represented, so the "None exactly when" clause of `GetRepo` and `ListedReposAreFound` hold only under that assumption. The `st.error` message and logging are left out.
- RepoListing.ListFiles: a client error is modelled as a `Fails` listing (the root or a directory). The error message and logging are left out. The traversal is assumed to run over a finite tree, so a client that lists a directory inside itself is not modelled.
- RepoListing.DrainIsFlatten: relates the result to the depth-first flattening only as a multiset. The breadth-first order is stated level by level in `DrainLevels` instead.
- `encode_content`, `decode_content`, `get_file_content`, `update_file` and the `create_*`/`delete_*` helpers of `github_ops.py` are not modelled. They are thin wrappers over PyGithub and the Base64 (section 4 of RFC 4648) and UTF-8 codecs.
- The `exec` of the cleaned code and the fetch of `pages/sandbox.txt` in `pages/sandbox.py` are not modelled: dynamic execution and network I/O. The filter is not an isolation boundary.
- `app.py`, `auth.py`, `llm_utils.py`, `ui_components.py` and `utils.load_css` are not part of this model. They are UI, secrets handling, encryption and SDK calls.
