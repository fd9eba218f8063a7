# cursor-free-vip: the manual Cursor registration, modelled in Dafny

This project models `CursorRegistration` from `cursor_register_manual.py`. The class signs up a Cursor account with an address taken from one of three sources, then collects the session token and commits the account. It has three parts:

- **The counter-based address allocator.**
  - `email_config.txt` holds a template line and a decimal counter.
  - `_generate_auto_email` issues the template verbatim for counter 0. For any other counter it splices the counter, as five or more upper-case hex digits, in before the first `@`.
  - It then stores `counter + 1`. The first time, it asks the operator for a template.
- **The registration record store.** `_save_registration_record` puts a fixed-format block in front of whatever the same file holds.
- **The run itself:**
  - `setup_email`, the menu of automatic, suggested or typed addresses;
  - `get_verification_code`, which accepts exactly six digits;
  - `register_cursor`, the sign-up driver and the browser;
  - `_get_account_info`, at most 30 cookie queries two seconds apart;
  - `_save_account_info`, which updates auth, resets the machine IDs, saves the account, then writes the record;
  - `start`, which chains them.

## Modules

| file | module | what it holds |
|---|---|---|
| `common.dfy` | `Common` | `Option`, and `Call`: a collaborator that returns a value or raises |
| `text.dfy` | `Text` | Python's `strip`, `split`, universal-newline reading, `str(n)`/`int(s)` on ASCII decimals, `f"{n:05X}"`, `lower` for ASCII |
| `email_config.dfy` | `EmailConfig` | the file format: parsing the state, writing it, the record block, the address rule |
| `allocation.dfy` | `Allocation` | `_generate_auto_email` as a function of the file and the console, with its lemmas |
| `events.dfy` | `Events` | the log of outside effects (sign-up, page load, sleeps, cookie queries, commit steps, browser quits) |
| `polling.dfy` | `Polling` | the token poll of `_get_account_info` and what it costs |
| `rules.dfy` | `Rules` | the verification-code rule, the "yes"/"y" answer and the usage-quota text |
| `orchestration.dfy` | `Orchestration` | each step of a run as a function of the state before it and of the collaborators' answers |
| `registration.dfy` | `Registration` | the class itself, with one method per source method and the poll as a `while` loop |

The class `Registration.CursorRegistration` has these mutable fields:

- `content`: the file's text, or None while there is no file;
- `console`: the lines `input()` has still to read;
- `emailAddress` and `signupTab`;
- `events`: the outside effects so far.

Each method is proved to leave the state that the matching function of `Orchestration`, `Allocation` or `EmailConfig` gives. The lemmas about those functions state what the code promises.

Where the code does not do what the design evidently intends, the model follows the code. The lemmas state that behaviour:

- **Records break the allocator state.** A registration record written to the top of `email_config.txt` makes the file unreadable as a state. The next automatic allocation prompts for a template again and overwrites the file, records included (`EmailConfig.RecordBreaksConfig`, `Allocation.RecordResetsAllocator`).
- **The template check is weak.** It asks only for some `@`. A template with two of them is accepted, and the counter goes in before the first one (`Allocation.TemplateCheckIsWeak`).
- **A found token means success.** Once the session cookie is found, `_get_account_info` reports success whatever the commit did. A failed machine-ID reset does not make `register_cursor` fail (`Orchestration.AccountInfoResult`, `Orchestration.RegisterResult`).
- **The browser is closed twice on success.** It is closed once after the account step and again in `finally` (`Orchestration.BrowserQuits`).
- **A stored template without `@` still advances.** Such a template, written by hand with counter 0 into a writable file, still advances the counter once, and every later allocation raises (`Orchestration.StaleTemplate`). With a hand-written counter above 0 the first allocation already raises and nothing changes (`Allocation.AllocateFromState`).

## Model

| member | source | states |
|---|---|---|
| Text.IsSpace | cursor_register_manual.py:108 | the characters `str.strip()` removes: Python's whitespace set |
| Text.Strip | cursor_register_manual.py:108 | `strip()`: the result neither starts nor ends with a character of Python's whitespace set |
| Text.TrimLeft | cursor_register_manual.py:108 | `lstrip()`: never longer than the text, and empty or starting with a non-blank |
| Text.TrimRight | cursor_register_manual.py:108 | `rstrip()`: never longer than the text, and empty or ending with a non-blank |
| Text.TrimLeftDropsSpaces | cursor_register_manual.py:108 | everything `strip()` removes from the front is whitespace |
| Text.TrimRightDropsSpaces | cursor_register_manual.py:108 | everything `strip()` removes from the back is whitespace |
| Text.TrimLeftSuffix | cursor_register_manual.py:108 | what `lstrip` keeps is a suffix of the text |
| Text.TrimRightPrefix | cursor_register_manual.py:108 | what `rstrip` keeps is a prefix of the text |
| Text.StripWithin | cursor_register_manual.py:168-170 | stripping adds no character, so an `@` in the stripped line was in the typed line |
| Text.StripUnchanged | cursor_register_manual.py:108 | text that starts and ends with a non-blank is left as it is |
| Text.StripPadded | cursor_register_manual.py:265 | blanks around a non-blank text are removed and the text inside is kept exactly |
| Text.Split | cursor_register_manual.py:108 | `split(sep)` always yields at least one piece |
| Text.SplitPiecesFree | cursor_register_manual.py:108 | no piece holds the separator |
| Text.JoinSplit | cursor_register_manual.py:108 | joining the pieces with the separator gives back the text |
| Text.SplitJoin | cursor_register_manual.py:108 | splitting a join of separator-free pieces gives back those pieces |
| Text.SplitWithoutSep | cursor_register_manual.py:108-109 | text without the separator is one piece, itself |
| Text.SplitAround | cursor_register_manual.py:108 | splitting at a separator splits each side separately |
| Text.LastPiece | cursor_register_manual.py:350 | the last piece is the text after the last separator |
| Text.FirstPiece | cursor_register_manual.py:108-110 | the first piece is the text before the first separator |
| Text.TwoPieces | cursor_register_manual.py:108-111 | two separator-free lines followed by a break or the end are the first two pieces |
| Text.Newlines | cursor_register_manual.py:107-108 | a text-mode read: each `\r\n` and each lone `\r` becomes `\n`, every other character is kept in order |
| Text.NewlinesNoReturn | cursor_register_manual.py:107-108 | a text-mode read never yields a carriage return |
| Text.NewlinesUnchanged | cursor_register_manual.py:136-137 | text without carriage returns reads back as written |
| Text.NewlinesAfter | cursor_register_manual.py:136-137 | a prefix without carriage returns reads back unchanged in front of the rest |
| Text.NewlinesConcat | cursor_register_manual.py:136-137 | reading two texts joined is reading each, unless a `\r` meets the cut |
| Text.ReadKeepsPrefix | cursor_register_manual.py:107-108 | `read().strip()` keeps a non-blank first part of the file exactly |
| Text.DecimalString | cursor_register_manual.py:122 | `str(counter)` is never empty |
| Text.DecimalDigits | cursor_register_manual.py:122 | `str(counter)` is ASCII digits with no leading zero except for 0 |
| Text.DecimalRoundTrip | cursor_register_manual.py:111-122 | the digits of `str(n)` denote `n` |
| Text.ParseDecimal | cursor_register_manual.py:111 | `int(line)` on unsigned decimal text: the blanks `int()` skips are ignored around the digits; anything else fails, the information separators U+001C-U+001F included |
| Text.SeparatorNotANumber | cursor_register_manual.py:108-111 | an information separator (U+001C-U+001F) anywhere in the line is whitespace to `strip()` but makes `int()` fail |
| Text.ParseDecimalString | cursor_register_manual.py:111 | `int(str(n)) == n` for every counter with at most 4300 digits; beyond that the model still parses, where CPython raises (see Left out) |
| Text.NotANumber | cursor_register_manual.py:111 | a line starting with a non-blank non-digit is not a number |
| Text.HexString | cursor_register_manual.py:184 | the hex rendering is never empty |
| Text.HexRoundTrip | cursor_register_manual.py:184 | the hex rendering is upper-case hex digits that denote the number |
| Text.HexNoLeadingZero | cursor_register_manual.py:184 | the hex rendering has no leading zero, except for 0 itself |
| Text.Hex5 | cursor_register_manual.py:184 | `f"{n:05X}"`: the upper-case hex rendering, padded on the left with zeros to five digits |
| Text.Hex5RoundTrip | cursor_register_manual.py:184 | `f"{n:05X}"` is upper-case hex digits that denote `n` |
| Text.Hex5Length | cursor_register_manual.py:184 | `f"{n:05X}"` has at least five digits, exactly five below 0x100000 |
| Text.Lower | cursor_register_manual.py:223 | `lower()` on ASCII letters: each upper-case letter is mapped to its lower-case one, nothing else changes |
| EmailConfig.Lines | cursor_register_manual.py:108 | `f.read().strip().split('\n')` gives at least one line |
| EmailConfig.ParseConfig | cursor_register_manual.py:102-115 | an unreadable state is `(None, 0)`: no template, counter 0 |
| EmailConfig.SeparatorInCounterLine | cursor_register_manual.py:108-115 | a counter line holding an information separator reads as `(None, 0)` |
| EmailConfig.SeparatorCounterFile | cursor_register_manual.py:108-115 | a three-line file whose second line holds an information separator reads as `(None, 0)` |
| EmailConfig.ExampleSeparatorCounter | cursor_register_manual.py:108-115 | the file `a@b`, `5` followed by U+001C, `x` reads as `(None, 0)` |
| EmailConfig.ParsedTemplateWellFormed | cursor_register_manual.py:108-110 | a template read from the file is non-empty, starts with a non-blank and holds no line break |
| EmailConfig.ConfigText | cursor_register_manual.py:122-124 | the text written: template, a line break, the counter in decimal, and a third line with the current address when there is a non-empty one |
| EmailConfig.ConfigRoundTrip | cursor_register_manual.py:102-127 | reading back `t\nc` (with or without a third line) gives `(t, c)` for every well-formed `t` and every `c` below 10^4300; larger counters are outside CPython's conversion limit (see Left out) |
| EmailConfig.OneLineHasNoState | cursor_register_manual.py:108-113 | content with fewer than two lines reads as `(None, 0)` |
| EmailConfig.SecondLineNotNumber | cursor_register_manual.py:108-115 | a second line starting with a non-digit reads as `(None, 0)` |
| EmailConfig.RecordBlock | cursor_register_manual.py:141-145 | the record block: header with timestamp, address, user name, password, a line of 50 `=` and a blank line |
| EmailConfig.WithRecord | cursor_register_manual.py:134-149 | the new file text: the block followed by the old text as read, or by nothing when there was no file |
| EmailConfig.RecordPrepended | cursor_register_manual.py:134-149 | the record block goes in front, followed by the old text as it was (empty when there was no file) |
| EmailConfig.RecordsNewestFirst | cursor_register_manual.py:134-149 | two records in a row: newer block, then older block, then the original text |
| EmailConfig.RecordBreaksConfig | cursor_register_manual.py:108-115 | a file that starts with a record block (built at lines 141-145) reads as `(None, 0)` |
| EmailConfig.SplitAtFirst | cursor_register_manual.py:183 | `split('@', 1)` unpacks exactly when there is an `@`, into the text before the first `@` and all after it |
| EmailConfig.AutoAddress | cursor_register_manual.py:178-184 | the address for a counter: the template for 0, otherwise the `05X` counter spliced in before the first `@`; nothing where the split raises |
| EmailConfig.IssuedAddress | cursor_register_manual.py:178-184 | counter 0 gives the template; otherwise the local part, the counter in `05X` form, `@`, the domain; no `@` raises |
| EmailConfig.SplicedAddress | cursor_register_manual.py:183-184 | the counter goes in before the first `@` of the template |
| EmailConfig.AddressesDistinct | cursor_register_manual.py:178-184 | two counters never give the same address for a template with `@` |
| EmailConfig.DistinctHexParts | cursor_register_manual.py:183-184 | two different counters spliced between the same local part and domain give two different texts |
| EmailConfig.ExampleAddresses | cursor_register_manual.py:178-184 | `user@test.com` gives itself for 0 and `user00001@test.com` for 1 |
| Allocation.Stored | cursor_register_manual.py:117-127 | the file after `_write_email_config(t, c)`: overwritten with `t\nc`, or left as it was when it cannot be written |
| Allocation.Issuance | cursor_register_manual.py:178-184 | the address and counter handed back for `(t, c)`, or a raise when the address cannot be built |
| Allocation.Issue | cursor_register_manual.py:178-189 | issue for `(t, c)`, then store `(t, c + 1)` unless building the address raised |
| Allocation.Allocate | cursor_register_manual.py:160-189 | `_generate_auto_email`: a stored state is used as it is; otherwise a template is read, refused without `@`, and stored with counter 0 first |
| Allocation.AllocateFromState | cursor_register_manual.py:160-189 | with a stored `(t, c)`: the address for `c` comes back with `c`, the state becomes `(t, c + 1)`, raises exactly when `c > 0` and no `@`, and then nothing is written |
| Allocation.AllocateFirstTime | cursor_register_manual.py:164-176 | no state: end of input raises; a template without `@` is refused and nothing is written; otherwise the template itself comes back with counter 0 |
| Allocation.FirstTimeState | cursor_register_manual.py:164-189 | after the first allocation the stored state is `(template, 1)` |
| Allocation.AllocateTimes | cursor_register_manual.py:160-189 | `n` allocations give `n` results |
| Allocation.ConsecutiveAllocations | cursor_register_manual.py:178-189 | `n` allocations from `(t, c)` issue the addresses for `c, …, c + n - 1` in order and leave `(t, c + n)` |
| Allocation.AllocationsFromScratch | cursor_register_manual.py:160-189 | from no state, allocation `i` issues the address for counter `i`, and the counter ends at `n` |
| Allocation.FreshTemplateScenario | cursor_register_manual.py:160-189 | a fresh file with `user@test.com` issues `user@test.com` then `user00001@test.com` |
| Allocation.IssuedAddressesDistinct | cursor_register_manual.py:178-189 | a run of allocations never issues one address twice |
| Allocation.RecordResetsAllocator | cursor_register_manual.py:160-176 | after a record, the next allocation asks for a template again and overwrites the file, records included |
| Allocation.TemplateCheckIsWeak | cursor_register_manual.py:170-184 | a template with two `@` is accepted, and the counter goes in before the first `@` |
| Allocation.ReadOnlyRepeats | cursor_register_manual.py:117-127 | when the file cannot be written the state never advances and the same address is issued again |
| Polling.SessionIndex | cursor_register_manual.py:361-362 | the first cookie named `WorkosCursorSessionToken`, and none before it |
| Polling.AttemptToken | cursor_register_manual.py:359-366 | one attempt: the token of the first session cookie, or nothing when the query raised, no cookie is named for the session or decoding it raised |
| Polling.Poll | cursor_register_manual.py:354-381 | the first of the 30 attempts that yields a token, with that token, or exhaustion |
| Polling.FailedAttempts | cursor_register_manual.py:368-379 | `n` failed attempts: a query each, and a two-second sleep after each but the thirtieth |
| Polling.PollEvents | cursor_register_manual.py:354-381 | the poll's outside effects: the failed attempts before the one that finds a token and its query, or all 30 failed attempts |
| Polling.FailedAttemptCases | cursor_register_manual.py:359-379 | a query that raises, or a token decode that raises, is a failed attempt |
| Polling.PollStopsAtFirst | cursor_register_manual.py:358-366 | the poll stops at the first attempt that yields a token |
| Polling.PollResult | cursor_register_manual.py:354-381 | a found token comes from some attempt below 30 after only failed ones; exhausted exactly when all 30 fail |
| Polling.FailedAttemptsCounts | cursor_register_manual.py:368-379 | `n` failed attempts make `n` queries and `min(n, 29)` two-second sleeps, nothing else |
| Polling.PollCost | cursor_register_manual.py:354-381 | an exhausted poll makes 30 queries and 29 sleeps; a token at attempt `k` costs `k + 1` queries and `k` sleeps |
| Polling.PollEventKinds | cursor_register_manual.py:358-381 | the poll only queries cookies and sleeps |
| Rules.VerificationCode | cursor_register_manual.py:265-271 | the stripped line when it is exactly six digits, nothing otherwise |
| Rules.AcceptedCode | cursor_register_manual.py:265-271 | a code is accepted exactly when the stripped line is six digits; the code returned is the stripped line, six digits with no blank, each typed in the line |
| Rules.AcceptedCodeInLine | cursor_register_manual.py:265 | an accepted code sits in the typed line right after its leading blanks, and only blanks follow it |
| Rules.PaddedCodeAccepted | cursor_register_manual.py:265-271 | six digits with blanks around are accepted as the six digits |
| Rules.NonDigitRefused | cursor_register_manual.py:267 | any non-digit refuses the code |
| Rules.ExampleCodes | cursor_register_manual.py:265-271 | `12a456` is refused and `123456` accepted |
| Rules.IsYes | cursor_register_manual.py:223 | the answer lower-cased is `yes` or `y` |
| Rules.YesAnswers | cursor_register_manual.py:223 | an answer takes the suggestion exactly when it is `y` or `yes` in any case |
| Rules.UsageQuota | cursor_register_manual.py:347-350 | `未知` without a usage element, otherwise the stripped text after its last `/` |
| Rules.LastFigure | cursor_register_manual.py:350 | the stripped text after the last `/` |
| Rules.UsageAfterLastSlash | cursor_register_manual.py:347-350 | the quota is the stripped text after the last `/` |
| Rules.UsageHasNoSlash | cursor_register_manual.py:348-350 | the quota never holds a `/` |
| Rules.LastFigureHasNoSlash | cursor_register_manual.py:350 | the stripped text after the last `/` holds no `/` |
| Orchestration.Shown | cursor_register_manual.py:141-145 | `f"{email}"`: the address, or `None` when there is none |
| Orchestration.Quits | cursor_register_manual.py:315-319 | `if browser_tab: browser_tab.quit()`: one close exactly when there is a tab |
| Orchestration.Chosen | cursor_register_manual.py:249-255 | the end of `setup_email`: the address is kept, and accepted exactly when it holds `@` |
| Orchestration.SaveRecord | cursor_register_manual.py:129-158 | the record goes in front of the file when it can be written, else nothing changes and False comes back |
| Orchestration.SaveAccountInfo | cursor_register_manual.py:387-415 | `_save_account_info`: auth update, reset, account save and record, stopping at the first hard failure |
| Orchestration.AccountInfo | cursor_register_manual.py:336-385 | `_get_account_info`: the settings page, a pause, the usage figure and the token poll, then the commit with the token found |
| Orchestration.RegisterCursor | cursor_register_manual.py:277-334 | `register_cursor`: sign-up, then account information on success, closing the browser twice after a reported success and once after a failure |
| Orchestration.SetupEmail | cursor_register_manual.py:191-259 | `setup_email`: the choice line picks option 2, 3 or, for anything else, the allocator |
| Orchestration.SuggestedOrTyped | cursor_register_manual.py:213-231 | option 2: the suggestion on a yes, otherwise the answer typed |
| Orchestration.Typed | cursor_register_manual.py:233-236 | option 3: the next line, stripped |
| Orchestration.Automatic | cursor_register_manual.py:201-211 | option 1: the next address from the allocator |
| Orchestration.GetVerificationCode | cursor_register_manual.py:261-275 | `get_verification_code`: reads one line and accepts it as `Rules.VerificationCode` says; nothing at end of input |
| Orchestration.Start | cursor_register_manual.py:417-424 | `start`: setup, and registration only when setup succeeded |
| Orchestration.CommitOrder | cursor_register_manual.py:387-415 | the log grows by exactly the auth update, then the reset unless the auth update raised, then the account save only after a reset that returned True; the record only after a save that returned True; True exactly when all went through; the file changes only on a complete commit to a writable file |
| Orchestration.AuthFalseIgnored | cursor_register_manual.py:392-395 | an auth update returning False changes nothing else |
| Orchestration.CommitWritesRecord | cursor_register_manual.py:405-409 | a complete commit on a writable file puts the record for this account in front |
| Orchestration.CommitNoQuit | cursor_register_manual.py:387-415 | the commit never closes the browser |
| Orchestration.AccountInfoResult | cursor_register_manual.py:336-385 | success exactly when there is a tab, the page loads, the usage can be read and a token is found, whatever the commit made of it |
| Orchestration.AccountInfoExhausted | cursor_register_manual.py:339-381 | no token: the log grows by exactly the page, the pause and 30 failed attempts (30 queries, 30 two-second sleeps in all), with no commit, and the file is unchanged |
| Orchestration.AccountInfoNoQuit | cursor_register_manual.py:336-385 | `_get_account_info` never closes the browser |
| Orchestration.AccountInfoExtends | cursor_register_manual.py:336-385 | `_get_account_info` only appends to the log and keeps the address |
| Orchestration.CommitExtends | cursor_register_manual.py:387-415 | `_save_account_info` only appends to the log and keeps the address |
| Orchestration.RegisterResult | cursor_register_manual.py:277-334 | success exactly when the driver reports success with a tab, the page loads, the usage can be read and a token is found |
| Orchestration.BrowserQuits | cursor_register_manual.py:309-334 | the browser is closed twice after a reported success with a tab, once after a failure with a tab, never without one |
| Orchestration.RegisterPrefix | cursor_register_manual.py:277-312 | `register_cursor` only appends to the log, starting with the sign-up, and keeps the address |
| Orchestration.SetupEmailResult | cursor_register_manual.py:191-259 | setup touches neither browser nor log; an accepted address holds an `@`; choices 2 and 3 leave the file alone |
| Orchestration.UnknownChoiceIsAutomatic | cursor_register_manual.py:201-247 | any choice other than 2 and 3 does what 1 does |
| Orchestration.AutomaticFromState | cursor_register_manual.py:201-211 | the automatic choice with a stored `(t, c)` accepts the address for `c` and stores `(t, c + 1)` |
| Orchestration.StaleTemplate | cursor_register_manual.py:178-187 | a stored template without `@` at counter 0 in a writable file is refused once while the counter moves to 1; every later try, whatever the console holds, raises and leaves the file as it is |
| Orchestration.SuggestionAnswer | cursor_register_manual.py:213-227 | with a suggestion, a yes takes it and any other answer is the address; accepted exactly when it holds `@` |
| Orchestration.TypedAnswer | cursor_register_manual.py:233-236 | option 3 takes the next line, stripped, as the address, and accepts it exactly when it holds `@` |
| Orchestration.NoSuggestionIsTyped | cursor_register_manual.py:228-231 | option 2 with no (or an empty) suggestion does what option 3 does |
| Orchestration.StartSetupFails | cursor_register_manual.py:417-424 | a run whose setup fails logs no outside effect and opens no browser; the allocator may already have written the file |
| Orchestration.StartSucceeds | cursor_register_manual.py:417-424 | a successful run signed up with an address holding `@` and closed the browser twice |
| Registration.CursorRegistration.constructor | cursor_register_manual.py:36-60 | no address and no tab yet, an empty log, the given identity |
| Registration.CursorRegistration.ReadLine | cursor_register_manual.py:168 | `input()` consumes the next console line; at end of input nothing is read |
| Registration.CursorRegistration.ReadEmailConfig | cursor_register_manual.py:102-115 | returns the parse of the current file |
| Registration.CursorRegistration.WriteEmailConfig | cursor_register_manual.py:117-127 | the file becomes `template\ncounter[\ncurrent]` when writable, else is left alone and False is returned |
| Registration.CursorRegistration.SaveRegistrationRecord | cursor_register_manual.py:129-158 | the record block goes in front of the file's text, or False when the file cannot be written |
| Registration.CursorRegistration.GenerateAutoEmail | cursor_register_manual.py:160-189 | result, file and console after the call are those of `Allocation.Allocate` |
| Registration.CursorRegistration.SetupEmail | cursor_register_manual.py:191-259 | result and new state are those of `Orchestration.SetupEmail` |
| Registration.CursorRegistration.GetVerificationCode | cursor_register_manual.py:261-275 | result and new state are those of `Orchestration.GetVerificationCode` |
| Registration.CursorRegistration.UpdateCursorAuth | cursor_register_manual.py:433-436 | logs the auth update and hands back the updater's answer |
| Registration.CursorRegistration.SaveAccountInfo | cursor_register_manual.py:387-415 | result and new state are those of `Orchestration.SaveAccountInfo` |
| Registration.CursorRegistration.SessionToken | cursor_register_manual.py:360-366 | the loop over cookies finds the token of the first session cookie, as `Polling.AttemptToken` says |
| Registration.CursorRegistration.GetAccountInfo | cursor_register_manual.py:336-385 | result and new state are those of `Orchestration.AccountInfo` |
| Registration.CursorRegistration.QueryToken | cursor_register_manual.py:360-366 | one attempt of the loop gives what `Polling.AttemptToken` says for that attempt's answer |
| Registration.CursorRegistration.PollSessionToken | cursor_register_manual.py:354-381 | the `while` loop logs the events of `Polling.PollEvents` and comes back with a token exactly when `Polling.Poll` finds one, and with that token |
| Registration.CursorRegistration.Quit | cursor_register_manual.py:315-319 | closes the browser when there is one |
| Registration.CursorRegistration.RegisterCursor | cursor_register_manual.py:277-334 | result and new state are those of `Orchestration.RegisterCursor` |
| Registration.CursorRegistration.Start | cursor_register_manual.py:417-431 | result and new state are those of `Orchestration.Start` |

## Left out

- Storage path resolution (`_get_email_config_file`, `cursor_register_manual.py:66-100`): the model has a single file, whose text is `content` (None while absent). Whether it can be written is the `writable` flag of `Orchestration.Env`.
- Identity generation with `Faker` and `random` (`cursor_register_manual.py:49-64`): the first name, last name and password are constructor parameters.
- Printing and translation: the colour and emoji output and the translator lookups are not modelled. The translator is taken to be present, as `__init__` uses it unguarded.
- `os.environ['BROWSER_HEADLESS']`, `self.browser`, `self.controller`, `self.sign_up_url` and `self.email_tab`: they are set but never read by the modelled code.
- `get_config` and `TempMailPlusTab` (`cursor_register_manual.py:284-293`): their only effect is an argument passed to the sign-up driver. An exception from them is folded into the driver raising.
- `new_signup.main`, `CursorAuth`, `MachineIDResetter`, `AccountManager`, `get_token_from_cookie` and the browser tab are code this model cannot see. Each one is an answer in `Orchestration.Env` (a value, or an exception); the page load is `loads`. The driver calls back into `get_verification_code` through `controller=self`; that callback is not part of the register step's model.
- `time.sleep` appears as a `Sleep` event in the log. `datetime.now()` is the `timestamp` parameter of `Orchestration.Env`.
- A cookie without a `name` is treated like one with another name. A session cookie without a `value` is folded into the token decode raising.
- `Text.ParseDecimal`: `int()` also accepts a sign, underscores and non-ASCII digits, which the model refuses. The model accepts only ASCII digits, with around them only the whitespace `int()` skips.
- `Text.ParseDecimal`: CPython's limit of 4300 digits on decimal `int`/`str` conversion (`sys.int_info.default_max_str_digits`, from 3.11 and the 3.7.14-3.10.7 security releases) is not modelled. The model parses a counter line of any length, where `int(lines[1])` raises on 4301 or more digits and the read gives `(None, 0)`.
- `Allocation.Stored`: for a counter of 10^4300 or more, `f"{template}\n{counter}"` raises after `open(..., 'w')` has emptied the file, and `_write_email_config` returns False. The model writes `ConfigText` instead. The same holds for `Registration.CursorRegistration.WriteEmailConfig`.
- `Rules.AcceptedCode`: `str.isdigit` also accepts non-ASCII digits. The model accepts only `0`-`9`.
- `Text.Lower`: only ASCII letters are lowered. That is exact for the comparisons with `yes` and `y` it is used in.
- Read and decode errors other than an absent file are not modelled. On writing, text is stored as given: no platform newline translation.
- The `finally` block of `start` (`cursor_register_manual.py:425-431`) is not modelled: the class never sets `temp_email`, so it does nothing.
- `main` and `build.py`, and `test_registration_record.py`. The latter is a driver script with no assertions; it calls `_save_registration_record`, whose behaviour `EmailConfig.RecordPrepended` states.
