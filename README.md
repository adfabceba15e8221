# A verified model of a small Unix shell and its Breakout game

The system is a toy shell written in C. It reads a line, splits it into
tokens, runs builtins (`cd`, `breakout`, `exit`), and otherwise runs a
pipeline of programs joined by `|`. Each stage may redirect its input
with `< file` and its output with `> file`. The `breakout` builtin starts
a terminal Breakout game.

This project models the shell's command-line front end and the game's step
logic in Dafny, in the same imperative form as the C code:

- **Tokenizer** (`tokenizer.dfy`). `split_tokens` is a method over an
  `array<Option<string>>`, in which `None` plays the NULL pointer. Its loop
  invariants tie the array to a pure scan `ScanOf`. An independent
  description, `Kept` (the characters that reach some token), is connected
  to the scan by lemmas.
- **Redirection** (`redirection.dfy`). `do_redirection` shifts entries two
  places down in place, as the C code does. It is proved against a pure
  scan, `Resolve`, whose lemmas say:
  - operators and their filenames leave in pairs;
  - the surviving arguments keep their order;
  - no operator survives;
  - the last `<` and the last `>` win.
- **Pipeline** (`pipeline.dfy`). The part of `exec_commands` in front of
  the system calls:
  - builtin dispatch;
  - overwriting `|` tokens with NULL;
  - walking from stage to stage;
  - wiring stages to pipe ends.

  Processes and descriptors are abstract. What the parent does is a log of
  steps: make a pipe, launch a stage with given input and output endpoints,
  close a write end. Lemmas state the shape of that log. The child side of
  `start_process` is modelled up to `execvp`: endpoints are applied first,
  and file redirections replace them.
- **Breakout** (`breakout.dfy`). The block grid is an `array<Block>`. The
  paddle and the ball are classes whose fields the methods update. One
  game update is proved equal to a pure function `Update`, and lemmas state
  what the game promises:
  - a loss leaves the blocks alone;
  - blocks only ever go from standing to destroyed;
  - the game is won exactly when none is left standing;
  - the ball's vertical speed stays 1 or -1;
  - the paddle stays on screen.

  The main loop consumes a list of ticks. Each tick is either Escape, or a
  frame that gives the key read and whether each of the two cooldowns has
  expired.

Two behaviours of the code are worth knowing, and the model follows both:

- Quote characters are dropped, but spaces inside quotes are copied, so
  `echo "a b" c` gives the tokens `echo`, `a b` and `c`
  (`Tokenizer.QuotedSpanExample`).
- shell.c:251 opens an output file with `O_CREAT | O_WRONLY` and without
  `O_TRUNC`, so an existing file is not truncated (`Pipeline.ChildSetup`,
  `Pipeline.Stream`).

## Model

| member | source | states |
|---|---|---|
| Tokenizer.NewlineIndex | shell.c:57 | the scan stops at the first newline of the buffer: the index holds `'\n'` and nothing before it does |
| Tokenizer.Step | shell.c:59-83 | one loop iteration on one character: a quote toggles the flag; an unquoted space stores a non-empty pending token and restarts it; any other character is appended to the pending token |
| Tokenizer.ScanOf | shell.c:57-86 | the scanner's variables after reading a prefix of the line, from a clear flag, an empty token and no stored token |
| Tokenizer.Tokens | shell.c:57-90 | what `dest` holds ahead of its NULL: the stored tokens, then the pending one, even when empty |
| Tokenizer.ScanSize | shell.c:57-90 | each character adds at most one stored token or one pending character, so a line of n characters yields between 1 and n + 1 tokens |
| Tokenizer.ScanQuoted | shell.c:59-62 | the in-quotes flag is set exactly when an odd number of `"` has been read |
| Tokenizer.ScanKept | shell.c:57-86 | after any prefix, the stored tokens followed by the pending token spell the characters kept so far |
| Tokenizer.ScanClean | shell.c:59-83 | stored tokens are never empty, and neither they nor the pending token contain `"` |
| Tokenizer.DoneGrows | shell.c:70-73 | tokens are only ever appended to `dest` as the scan advances: the tokens stored after any prefix stay, unchanged, at the front of those stored after the whole line |
| Tokenizer.TokensConcat | shell.c:57-90 | concatenating the emitted tokens gives the line with every `"` and every space outside quotes deleted |
| Tokenizer.TokensShape | shell.c:59-90 | at least one token is emitted, no token contains `"`, and only the last token can be empty |
| Tokenizer.NoQuotesNoSpaces | shell.c:59-83 | a line without quotes gives tokens without spaces, so a space reaches a token only from a quoted span |
| Tokenizer.EmptyLine | shell.c:87-90 | an empty line gives the single token `""` |
| Tokenizer.TrailingSpace | shell.c:63-90 | an unquoted trailing space stores the pending token if non-empty and leaves a trailing `""` |
| Tokenizer.EchoScan | shell.c:63-78 | after `echo ` the word `echo` is stored and the pending token is empty |
| Tokenizer.QuotedScan | shell.c:59-83 | after `echo "a b"` the pending token is `a b`, with the space kept |
| Tokenizer.QuotedSpanExample | shell.c:59-90 | `echo "a b" c` gives `echo`, `a b`, `c` |
| Tokenizer.Clear | shell.c:50-55 | every slot of `dest` is NULL afterwards |
| Tokenizer.SplitTokens | shell.c:42-91 | `dest` holds exactly the tokens of the line before the first newline, then NULL, and NULL in every later slot |
| Redirection.Strip | shell.c:213-235 | the scan over the unread tokens: `<` and `>` set their buffer to the next token and both are skipped; any other token is kept; defined only when every operator has a next token and no `<` is met before any token is kept (`Defined`) |
| Redirection.Resolve | shell.c:207-235 | do_redirection's result for a stage: the scan from no kept argument and two empty filename buffers |
| Redirection.StripShape | shell.c:213-235 | the scan only appends to the kept arguments; what it appends is a subsequence of the unread tokens with no operator; deleted tokens come in pairs |
| Redirection.ResolveShape | shell.c:213-235 | no `<` or `>` survives, survivors keep their relative order, and the length drops by an even number |
| Redirection.StripFiles | shell.c:215-234 | each filename buffer keeps what it held or takes one of the tokens read |
| Redirection.ResolveFiles | shell.c:207-234 | each filename buffer ends empty or holding a token of the stage |
| Redirection.StripAppend | shell.c:213-235 | scanning a concatenation is scanning its parts one after the other |
| Redirection.ResolveAppendWord | shell.c:213-235 | a non-operator token becomes the last argument and changes no filename |
| Redirection.ResolveAppendInput | shell.c:215-224 | the last `<` wins: appending `< f` sets the input file to `f` and changes nothing else |
| Redirection.ResolveAppendOutput | shell.c:225-234 | the last `>` wins: appending `> f` sets the output file to `f` and changes nothing else |
| Redirection.NoOperators | shell.c:213-235 | a stage with no operator keeps all its arguments and requests no redirection (empty filenames) |
| Redirection.SortToFileExample | shell.c:225-234 | `sort > out.txt` runs `sort` with output file `out.txt` and no input file |
| Redirection.DeletePair | shell.c:218-222 | the inner shifting loop removes entries i and i+1 of the NULL-terminated vector, keeping the rest in order |
| Redirection.TakeRedirection | shell.c:215-223 | one redirection: returns the filename after the operator and removes both tokens |
| Redirection.DoRedirection | shell.c:207-235 | the vector left in place is the resolved argument list, and the two filename buffers are those of the last `<` and `>` ("" when none) |
| Pipeline.Builtin | shell.c:99-112 | exactly `cd`, `breakout` and `exit` are builtins and none of them builds a pipeline; `cd` gets a path exactly when a second token is present |
| Pipeline.Split | shell.c:118-126 | a token list always has at least one stage |
| Pipeline.SplitCount | shell.c:118-126 | the number of stages is the number of `"|"` tokens plus one, and no stage contains `"|"` |
| Pipeline.JoinSplit | shell.c:118-126 | joining the stages with `"|"` gives back the token list: stages in order are the tokens without the `"|"` tokens |
| Pipeline.SplitRun | shell.c:118-126 | a run without `"|"` before a `"|"` is a stage of its own |
| Pipeline.SplitJoin | shell.c:118-126 | splitting a join of `"|"`-free stages gives back the stages |
| Pipeline.ThreeStageExample | shell.c:118-126 | `a \| b \| c` has the stages `a`, `b`, `c` |
| Pipeline.Start | shell.c:147-152 | stage i begins after every earlier stage and its NULL slot |
| Pipeline.StartNext | shell.c:147-152 | the `process` cursor moves from a stage's first slot to the slot after its NULL |
| Pipeline.MarkedLayout | shell.c:118-152 | once the `"|"` slots are NULL, each stage is a NULL-terminated vector at its start slot |
| Pipeline.Starts | shell.c:147-152 | there is one start slot per stage |
| Pipeline.InputOf | shell.c:130-144 | stage i reads standard input exactly when it is the first stage, otherwise the previous pipe's read end |
| Pipeline.OutputOf | shell.c:141-155 | stage i writes standard output exactly when it is the last stage, otherwise its own pipe's write end |
| Pipeline.Rounds | shell.c:133-153 | the first i iterations of the loop over all stages but the last |
| Pipeline.Plan | shell.c:129-155 | every iteration of the loop, then the last stage's launch from the last pipe to standard output |
| Pipeline.RoundsLength | shell.c:133-153 | each loop iteration takes three steps |
| Pipeline.RoundsAt | shell.c:133-153 | iteration j makes pipe j, launches stage j into it, then closes its write end |
| Pipeline.RoundsPipes | shell.c:133-153 | i iterations make pipes 0..i-1, in order |
| Pipeline.RoundsLaunches | shell.c:133-153 | i iterations launch stages 0..i-1 in order, each from the previous pipe into its own |
| Pipeline.RoundsHeld | shell.c:133-153 | after i iterations the parent holds the read ends of pipes 0..i-1 and no write end |
| Pipeline.PlanAt | shell.c:129-155 | the parent's steps, one by one: 3(n-1)+1 steps; each write end is closed right after its stage's launch; stage 0 reads stdin; the last stage writes stdout; stage i writes pipe i, which stage i+1 reads |
| Pipeline.PlanSummary | shell.c:129-155 | exactly n-1 pipes are made; the n stages are launched once each, in order, wired stage to stage; at the end the parent still holds every read end |
| Pipeline.MarkStages | shell.c:114-126 | every `"|"` slot becomes NULL, other slots are kept, and the count is the number of `"|"` tokens plus one |
| Pipeline.LaunchStages | shell.c:127-155 | the steps the loop takes are the plan for the stages' start slots |
| Pipeline.ExecCommands | shell.c:96-155 | `cd`, `breakout` and `exit` act without touching the tokens and without building a pipeline; any other line runs the plan with every stage laid out at its start slot |
| Pipeline.ChildSetup | shell.c:174-194 | the child's vector is the resolved argument list; its standard input and output are the named files when given, else the endpoints it was handed |
| Breakout.BlockAt | breakout.c:149-156 | block i sits at column i % num_cols + 1 of row 4 + i / num_cols, standing, coloured by its row |
| Breakout.BlockGrid | breakout.c:145-156 | every block starts standing in columns 1..num_cols of rows 4..8, coloured by its row, and no two blocks share a position |
| Breakout.InitBlocks | breakout.c:142-161 | block i is at x = i % num_cols + 1, y = 4 + i / num_cols with status 1, for num_cols = num_blocks / 5 |
| Breakout.Paddle.constructor | breakout.c:163-178 | the paddle has length 7, y = rows - 4, x = cols / 2 - 3 |
| Breakout.StartInBounds | breakout.c:167-169 | on a screen at least 7 columns wide, the starting paddle lies within it |
| Breakout.Paddle.Move | breakout.c:214-237 | `a` moves left unless x is 0, `d` moves right unless the paddle's right end is at num_cols, any other key leaves it |
| Breakout.Shift | breakout.c:216-237 | a key moves the paddle by at most one column and keeps a paddle that starts within 0 <= x <= num_cols - length there; any key but `a` and `d`, or none, leaves it |
| Breakout.Ball.constructor | breakout.c:180-194 | the ball starts at paddle.x + length/2, one row above the paddle, with yv = -1 and xv = 1 or -1 |
| Breakout.Advance | breakout.c:265-283 | after the move and the border checks, y >= 0 and 0 <= x <= num_cols; a ball inside the borders just moves by its velocity; one that reaches the top is clamped to row 0 with yv negated; one that reaches the left border is clamped to column 0, and one that reaches the right border to column num_cols, with xv negated |
| Breakout.Rebound | breakout.c:297-299 | the definition of stepping back: the ball moves back by its velocity and yv is negated, xv kept |
| Breakout.Deflect | breakout.c:313-318 | a bounce off the paddle returns the ball to where it moved from and negates yv; the new xv points away from the paddle's middle, right of it to the right and left of it to the left |
| Breakout.Ball.StepBack | breakout.c:297-299 | the ball moves back by its velocity and its vertical speed is negated, the horizontal one kept |
| Breakout.SweepStep | breakout.c:290-302 | one block of the sweep: earlier blocks stay; the block is appended as it was or, if standing, destroyed; the ball stays or rebounds; the flag stays set only while every block seen is destroyed |
| Breakout.SweepOf | breakout.c:288-303 | the sweep over all the blocks, from a set flag and the moved ball |
| Breakout.SweepDestroys | breakout.c:288-299 | the block sweep leaves the number of blocks alone and only turns standing blocks into destroyed ones, changing nothing else about them |
| Breakout.SweepFlag | breakout.c:288-303 | `all_destroyed` ends up 1 exactly when no block is left with status 1 |
| Breakout.SweepSpeed | breakout.c:297-299 | every hit only negates yv, so the sweep leaves the vertical speed at the same size |
| Breakout.SweepShape | breakout.c:288-303 | the block sweep only destroys standing blocks; its flag is set exactly when no block is left standing; yv only changes sign |
| Breakout.PaddleCheck | breakout.c:309-320 | the paddle loop only ever negates yv, and the ball's row changes exactly when it does, by stepping back |
| Breakout.PaddleCheckOnce | breakout.c:309-320 | a moving ball bounces off the paddle at most once: exactly when it is on the paddle's row within its columns, stepping back, negating yv and taking xv = x - middle |
| Breakout.Update | breakout.c:262-324 | an update keeps the number of blocks, and WON leaves none standing |
| Breakout.UpdateLost | breakout.c:284-285 | LOST exactly when the moved ball is at paddle.y + 3 or lower, and then no block changes |
| Breakout.UpdateBlocks | breakout.c:288-306 | an update only turns statuses from 1 to 0, and WON exactly when the game is not lost and every block has status 0 |
| Breakout.UpdateSpeed | breakout.c:271-316 | an update only ever negates yv, so starting from -1 it stays 1 or -1 |
| Breakout.UpdatePaddle | breakout.c:309-320 | while active, the ball bounces off the paddle exactly when the swept ball lies on the paddle within its length |
| Breakout.UpdatePlaying | breakout.c:262-324 | an update keeps every block in its grid place (standing or destroyed) and the vertical speed at 1 |
| Breakout.MoveBall | breakout.c:265-283 | the ball's new state is the moved and border-reflected one |
| Breakout.SweepBlocks | breakout.c:288-303 | the blocks and the ball after the in-place sweep, and the flag, are those of the block sweep |
| Breakout.CheckPaddle | breakout.c:309-320 | the ball after the paddle loop is the paddle check's |
| Breakout.UpdateGame | breakout.c:262-324 | the returned status, the blocks and the ball are those of one update |
| Breakout.PlayFrame | breakout.c:111-115 | the paddle moves only when its cooldown has expired and as a key dictates; without an update the state is unchanged and the status ACTIVE; with one, status, blocks and ball are those of one update after the paddle move |
| Breakout.Run | breakout.c:96-126 | the loop keeps the grid and the ball's speed; the paddle stays on a screen at least 7 wide; WON leaves no block standing, LOST leaves the ball below the paddle |

## Left out

- The shell's read loop, prompt, `fgets`, `chdir`, `getcwd` and `current_dir` (shell.c:22-36, 101-102) are I/O and session bookkeeping. `cd` is modelled as the action it asks for.
- `fork`, `execvp`, `dup2`, `waitpid`, `pipe` and `close` are abstract steps. Their error exits (shell.c:135-139, 168-172, 190-194) are not modelled.
- A launch stands for all of `start_process`, including the parent's `waitpid`. The parent therefore waits for each stage before starting the next. The model does not capture what that means for a stage that fills a pipe.
- Opening the redirection files and failing to (shell.c:237-259) is not modelled. `Pipeline.ChildSetup` records which file each stream goes to.
- `Tokenizer.SplitTokens` requires a newline in the buffer, a buffer of at most INPUT_SIZE characters, and fewer than NUM_TOKENS tokens. The C code checks none of these and overruns its arrays without them.
- `Tokenizer.SplitTokens` models "token empty" as an empty pending token. shell.c:65 calls `strlen` on a buffer that may not be initialised.
- `Tokenizer.SplitTokens` does not model the one-byte-short `malloc` at shell.c:88, nor the `free` calls of the clearing loop. The model states what the code evidently intends.
- `Tokenizer.SplitTokens` treats the line as plain characters. In the C code a NUL byte that `fgets` stored before the newline cuts a stored token short, because `strcpy` at shell.c:72 and 89 stops copying there: for `a\0b c` the C code stores `a` and `c`, and the model stores `a\0b` and `c`. The model does not capture this truncation.
- `Redirection.DoRedirection` requires `Defined`: every operator is followed by a token, and no `<` is met at index 0. Otherwise shell.c:217 and 227 copy from NULL, or shell.c:223-225 reads index -1.
- `Breakout.InitBlocks` requires the block count to be a multiple of 5. Otherwise a row index runs past the five colours, or num_cols is 0 and `i % num_cols` divides by zero. `Breakout.Run` always passes 5 × columns.
- The two cooldowns of `move_paddle` and `update_game` (breakout.c:202-212, 249-260) use the clock and `double` arithmetic. Each frame tick says whether each one has expired.
- Terminal set-up, `ioctl`, `gotoxy`, `printf`, `system("clear")` and `usleep` are rendering only. The screen size is a parameter of `Breakout.Run`.
- `rand()` in `init_ball` (breakout.c:190) is the boolean parameter `coin`.
- `esc_pressed` (breakout.c:377-387) becomes the Escape tick. It returns nothing on end of input and puts other keys back for `move_paddle`; the model does not capture either. The key a frame tick carries is the key `move_paddle` reads.
- `bouncing_message_sequence` (breakout.c:332-372) is a timed animation. `Breakout.Run` leaves its loop where that sequence would run.
- `Breakout.Ball.constructor` and `Breakout.UpdateGame` use unbounded integers for `xv` and `yv`, which are C `short`s, so 16-bit truncation is not modelled.
