# terminfo and termios, modelled in Dafny

This project models the core of a Go terminal library. Two packages are covered:

- **terminfo.** It decodes a compiled terminfo database entry (the binary form written by `tic`): a 12-byte header, the names section, then the boolean, number and string sections. It also interprets the parameterised string capabilities with `ApplyCapability`, a character-driven state machine. The machine has a value stack, 26 static and 26 dynamic variables, a nesting counter for `%? … %;`, and accumulators for `%{nn}` and for the flags after `%:`.
- **termios.** It holds the `Termios` record of a terminal's modes and the in-memory flag updates applied before the ioctl: `CfMakeRaw`, `NoEcho`, `Cbreak`, the speed getters and setters, and the field getters.

The model follows the Go code as written, quirks included. Most of them are proved as lemmas.

Modules:

- `Outcomes`: `Option`, and `Result`. Besides `Ok` and `Err(msg)`, `Result` has `Panic`, for a Go runtime panic (index out of range, failed type assertion), and `Underflow`, for a pop from the empty stack.
- `Strconv`: Go's `strconv.Itoa` and `strconv.Atoi` on the int64 range, with their round trip.
- `TerminfoDecode`: the database layout, the uint16 arithmetic of the decoder, and the specification functions `Decode`/`DecodeSections`. It also has the imperative `ParseTerminfo` with the section loops `ReadBools`, `ReadNumbers`, `ReadStrings` and `ReadCString`, each proved equal to its specification function.
- `TerminfoDecodeFacts`: what a successful decode contains, and when decoding fails.
- `Capability`: the machine state and `Step`, the effect of one template character. `Run` folds `Step` over a template and `Apply` is the whole call. It also has the imperative `ApplyCapability`, with the variables in the arrays of a `TerminfoVariables` object, proved equal to `Apply`.
- `CapabilityTrace`: `Exec`, the machine after a piece of template, and the lemmas that splice pieces together.
- `CapabilityFacts`: the directives one by one, the conditional skipping, and the whole-call properties.
- `CapabilityExamples`: the `setab` template of xterm-256color, rendered for every non-negative colour.
- `Termios`: the `Termios` class and the flag and speed operations.

Where the library's documentation and its code differ, the model follows the code:

- **Magic check.** The entry is rejected only when both magic bytes are wrong (`&&`, terminfo.go:144).
- **Booleans.** Only `boolSize - 1` bytes are read. A zero byte stores `false` rather than leaving the name absent (terminfo.go:161-167).
- **Numbers.** 0, 0x3737 and 0xffff are all treated as absent (terminfo.go:177).
- **Truncated data.** There is no typed error for a short or truncated entry. In the model every read past the end of the entry is `Panic`. In Go an index read past the end panics; a two-index slice may read slack bytes of the buffer instead (see "## Left out").
- **Unreadable names.** A names field without `|` panics on `terminalName[1]`.
- **`%c`.** It writes U+0080 for the value 0. Any other value fails Go's `.(uint8)` assertion, so it panics (terminfo.go:240-248).
- **Arithmetic directives.** `%+ %- %/ %* %^ %& %|` are empty `case`s in Go, and Go has no fallthrough, so they do nothing and stay in the percent state (terminfo.go:306-312). `%;` in the percent state is empty in the same way. The character after it is then read as a directive.
- **`%m`.** It does compute `v1 % v2`, truncating like Go, but stays in the percent state as well.
- **`%{nn}`.** Each character c appends the decimal text of 55 − c, not the digit c (terminfo.go:421). `%{8}` therefore pushes −1.
- **Variable `A`.** `%gA` and `%PA` index the static variables at −1 (`'A' - 66`), so they panic.

## Model

| member | source | states |
|---|---|---|
| Strconv.Atoi | terminfo/terminfo.go:413 | Go's `strconv.Atoi`: it succeeds exactly when the text after an optional sign is one or more digits whose value, negated after a `-`, fits in int64. The result is that value |
| Strconv.AtoiRejects | terminfo/terminfo.go:413-415 | the empty text, a lone sign, and any text with a non-digit after its first character (a `-` as in `7-1`) are refused |
| Strconv.DigitsShape | terminfo/terminfo.go:421 | the decimal text `strconv.Itoa` writes for a natural number is non-empty and all digits, and starts with `0` only for zero |
| Strconv.DigitsValueOfDigits | terminfo/terminfo.go:421 | reading the decimal text of n as digits gives back n |
| Strconv.AtoiOfUnsigned | terminfo/terminfo.go:413 | `Atoi` of an unsigned digit string within int64 is the string's decimal value |
| Strconv.AtoiOfNegative | terminfo/terminfo.go:413 | `Atoi` of `-` followed by digits is the negated value, down to the least int64 |
| Strconv.AtoiOfItoa | terminfo/terminfo.go:411-424 | for every int64 n, `Atoi(Itoa(n))` is n: the text `%{` accumulates per character parses back to the number written |
| TerminfoDecode.LE16Bytes | terminfo/terminfo.go:149-152 | a little-endian uint16 has the first byte as its low byte and the second as its high byte |
| TerminfoDecode.Add16Wraps | terminfo/terminfo.go:155 | the uint16 sum of header length and names size wraps modulo 2^16, as Go's `terminfoHeaderLength+namesSectionSize` does |
| TerminfoDecode.Double16Wraps | terminfo/terminfo.go:175 | uint16 doubling (`shortIntsSectionSize*2`, `offsetsNumber*2`) wraps modulo 2^16: the result is even and equals 2·(n mod 0x8000) |
| TerminfoDecode.Reads16 | terminfo/terminfo.go:175-187 | the number of 16-bit entries a section loop reads is half of the wrapped doubled count |
| TerminfoDecode.Chars | terminfo/terminfo.go:155 | `string(bytes)` keeps the length and maps each byte to the character of the same code |
| TerminfoDecode.CString | terminfo/terminfo.go:190-197 | a heap string never contains NUL |
| TerminfoDecode.CStringUpToNul | terminfo/terminfo.go:190-197 | a heap string is exactly the bytes from its offset up to the first NUL, or to the end of the entry when none follows |
| TerminfoDecode.Split | terminfo/terminfo.go:155 | `strings.Split` always returns at least one piece |
| TerminfoDecode.BoolsPanicStays | terminfo/terminfo.go:161-168 | once the boolean loop indexes out of range at some count, it does so at every larger count |
| TerminfoDecode.NumbersPanicStays | terminfo/terminfo.go:175-181 | the same for the number loop |
| TerminfoDecode.StringsPanicStays | terminfo/terminfo.go:187-202 | the same for the string loop |
| TerminfoDecode.ReadBools | terminfo/terminfo.go:159-168 | the boolean loop computes `Bools`, or panics exactly when `Bools` does |
| TerminfoDecode.ReadNumbers | terminfo/terminfo.go:173-181 | the number loop computes `Numbers` for `width / 2` entries |
| TerminfoDecode.ReadCString | terminfo/terminfo.go:190-197 | the rune loop over the heap computes `CString` |
| TerminfoDecode.ReadStrings | terminfo/terminfo.go:183-202 | the offset-table loop computes `Strings` for `width / 2` entries |
| TerminfoDecode.ReadSections | terminfo/terminfo.go:159-203 | the section part of the decoder computes `DecodeSections` |
| TerminfoDecode.ParseTerminfo | terminfo/terminfo.go:132-204 | the whole decoder computes `Decode`: the entry, `wrong terminfo file`, or a panic |
| TerminfoDecodeFacts.SplitJoin | terminfo/terminfo.go:155 | joining the pieces of `strings.Split` with the separator gives back the text |
| TerminfoDecodeFacts.SplitPiecesLackSep | terminfo/terminfo.go:155 | no piece of a split contains the separator |
| TerminfoDecodeFacts.SplitHasSecondPiece | terminfo/terminfo.go:155-157 | a second piece, which `Description` reads, exists exactly when the names field contains `\|` |
| TerminfoDecodeFacts.SplitFirstTwo | terminfo/terminfo.go:155-157 | the name is the text before the first `\|`, and the description is what comes between the first and the next `\|` |
| TerminfoDecodeFacts.BoolsContent | terminfo/terminfo.go:160-168 | for distinct names, the boolean map has exactly the first n names as keys, each true exactly when its byte is non-zero |
| TerminfoDecodeFacts.NumbersContent | terminfo/terminfo.go:174-181 | the number map holds the i-th name exactly when the i-th value is not 0, 0x3737 or 0xffff, with that value |
| TerminfoDecodeFacts.StringsContent | terminfo/terminfo.go:186-202 | the string map holds the i-th name exactly when the i-th offset is not 0xffff, with the NUL-terminated heap text at that offset |
| TerminfoDecodeFacts.DecodedSections | terminfo/terminfo.go:132-204 | a successful decode has a full header, and its maps are the section functions at the offsets the header gives |
| TerminfoDecodeFacts.MagicRejection | terminfo/terminfo.go:144-146 | the decoder reports `wrong terminfo file` exactly when both magic bytes are wrong; it reports no other error and never underflows |
| TerminfoDecodeFacts.ShortFilePanics | terminfo/terminfo.go:149-152 | an entry that passes the magic check but is shorter than the four header fields panics |
| TerminfoDecodeFacts.DecodedNames | terminfo/terminfo.go:155-157 | the decoder panics unless the names field has a `\|`; otherwise the name and description are its first two pieces |
| TerminfoDecodeFacts.DecodedBools | terminfo/terminfo.go:160-168 | in a decoded entry, each of the first `boolSize - 1` boolean names maps to whether its byte is non-zero, and no other name is present |
| TerminfoDecodeFacts.DecodedNumbers | terminfo/terminfo.go:170-181 | in a decoded entry, the numbers start on an even offset after the booleans, and each name is present exactly when its value is not one of the three absent markers |
| TerminfoDecodeFacts.DecodedStrings | terminfo/terminfo.go:182-202 | in a decoded entry, each name is present exactly when its offset is not 0xffff, and holds the heap text at that offset |
| Capability.Wrap64 | terminfo/terminfo.go:359-360 | Go int arithmetic: the result is the int64 value congruent to the exact value modulo 2^64, so an in-range value is unchanged |
| Capability.IncrementWraps | terminfo/terminfo.go:359 | the increment of the largest int64 is the least int64 |
| Capability.GoRemTruncates | terminfo/terminfo.go:339 | Go's `%` truncates: the remainder is smaller than the divisor in magnitude, has the dividend's sign, and completes the division identity |
| Capability.TerminfoVariables.constructor | terminfo/terminfo.go:217 | both variable arrays have 26 entries, all zero |
| Capability.RunStep | terminfo/terminfo.go:221-502 | one loop iteration: a successful step continues the run with the next character, and a failing step is the result of the call |
| Capability.BinaryDirective | terminfo/terminfo.go:262-342 | the comparisons and `%m` pop two integers and do what `Step` does, including the panic on a string operand or a zero divisor |
| Capability.PercentDirective | terminfo/terminfo.go:230-385 | the imperative percent switch has the effect `Step` gives, for every character |
| Capability.GetVariable | terminfo/terminfo.go:425-439 | `%g` reads the variable the letter names from the arrays, as `Step` does |
| Capability.SetVariable | terminfo/terminfo.go:440-455 | `%P` writes the popped value to the named array entry and changes no other entry |
| Capability.SkipConditional | terminfo/terminfo.go:460-501 | the four skipping states update the state and the nesting level as `Step` does |
| Capability.ExecuteStep | terminfo/terminfo.go:222-502 | the body of the template loop has the effect `Step` gives, on the unpacked machine and the variable arrays |
| Capability.ApplyCapability | terminfo/terminfo.go:211-508 | the imperative interpreter computes `Apply` |
| CapabilityTrace.RunIsExec | terminfo/terminfo.go:221-504 | running a template returns the result of the machine after the whole template, or that run's failure |
| CapabilityTrace.ExecAppend | terminfo/terminfo.go:221 | running `s + t` is running s and then t from the machine s leaves |
| CapabilityTrace.ExecAt | terminfo/terminfo.go:221 | running from position i is one step on `s[i]` followed by the run from `i + 1` |
| CapabilityTrace.DirectiveAt | terminfo/terminfo.go:224-225 | a `%` and the next character together are one directive of the percent switch |
| CapabilityTrace.ArgumentAt | terminfo/terminfo.go:456-459 | after `%p`, a digit pushes the argument it numbers |
| CapabilityTrace.LiteralAt | terminfo/terminfo.go:223-229 | a character other than `%` is copied to the result |
| CapabilityTrace.IntegerCharAt | terminfo/terminfo.go:420-423 | inside `%{`, each character appends the decimal text of 55 − c |
| CapabilityTrace.IntegerCloseAt | terminfo/terminfo.go:412-419 | `}` pushes the parsed number and returns to the initial state |
| CapabilityFacts.StepNeverUnsupported | terminfo/terminfo.go:222-502 | no step ever yields the "does not support" error |
| CapabilityFacts.RunNeverUnsupported | terminfo/terminfo.go:221-504 | no run of a template yields it either |
| CapabilityFacts.UnsupportedExactly | terminfo/terminfo.go:220-507 | the call reports an unsupported capability exactly when the entry has no string of that name |
| CapabilityFacts.LiteralsCopied | terminfo/terminfo.go:223-229 | a template without `%` is copied to the result unchanged |
| CapabilityFacts.PlainCapability | terminfo/terminfo.go:220-229 | a capability without `%` renders as its own text, whatever the arguments |
| CapabilityFacts.PercentPercent | terminfo/terminfo.go:232-235 | `%%` writes one `%` |
| CapabilityFacts.SetThenGet | terminfo/terminfo.go:425-455 | `%Px%gx` pops a value, stores it in variable x and pushes it back |
| CapabilityFacts.SetAt | terminfo/terminfo.go:440-455 | `%Px` pops the top into the dynamic (a-z) or static (B-Z) variable x |
| CapabilityFacts.SetSteps | terminfo/terminfo.go:440-455 | the set-variable step on a letter stores the popped value in that variable |
| CapabilityFacts.GetAt | terminfo/terminfo.go:425-439 | `%gx` pushes the value of variable x |
| CapabilityFacts.FreshVariablesAreZero | terminfo/terminfo.go:217 | at the start of a call, every variable that `%g` can read is 0 |
| CapabilityFacts.StaticAFaults | terminfo/terminfo.go:433-453 | `%gA`, and `%PA` on a non-empty stack, index the static variables at −1 and panic |
| CapabilityFacts.NonLetterVariable | terminfo/terminfo.go:425-455 | `%g` or `%P` followed by a non-letter is the letter error, but `%P` on an empty stack underflows first |
| CapabilityFacts.FlatSkipped | terminfo/terminfo.go:460-501 | text without a stop directive leaves a skipping machine unchanged |
| CapabilityFacts.ThenSkipped | terminfo/terminfo.go:465-474 | a skipped then-part ends at `%;` or `%e` at depth 0, in the initial state |
| CapabilityFacts.ElseSkipped | terminfo/terminfo.go:487-494 | a skipped else-part ends at `%;` at depth 0, in the initial state |
| CapabilityFacts.NestedSkipped | terminfo/terminfo.go:465-500 | a nested `%? … %;` with a well-nested body, of any depth, inside a skipped part is skipped as a whole and leaves the level unchanged |
| CapabilityFacts.WellNestedSkipped | terminfo/terminfo.go:460-501 | well-nested text leaves a skipping machine unchanged. At a depth above 0 a `%e` does not end the skip; at depth 0 of a then-part the text must have no outer `%e` |
| CapabilityFacts.PairSteps | terminfo/terminfo.go:460-501 | a skipped `%x` that is not `%?`, `%;` or a depth-0 then-part `%e` returns to the same skipping state |
| CapabilityFacts.BranchSkipped | terminfo/terminfo.go:460-501 | a skipped branch runs past nested conditionals of any depth to its own `%e` or `%;` (a then-part) or its own `%;` (an else-part), then execution resumes |
| CapabilityFacts.NestOpenedAt | terminfo/terminfo.go:475-497 | `%?` while skipping raises the nesting level by one |
| CapabilityFacts.NestOpenSteps | terminfo/terminfo.go:475-497 | the two steps of `%?` in a skipping state raise the level and keep skipping |
| CapabilityFacts.NestClosedAt | terminfo/terminfo.go:466-494 | `%;` while skipping at depth above 0 lowers the level by one and keeps skipping |
| CapabilityFacts.NestCloseSteps | terminfo/terminfo.go:466-494 | the two steps of that `%;` |
| CapabilityFacts.TestPops | terminfo/terminfo.go:370-377 | `%t` pops the top value and skips the then-part exactly when that value is the integer 0 |
| CapabilityFacts.TestArgument | terminfo/terminfo.go:367-377 | `%?%pN%t` tests argument N without changing the stack |
| CapabilityFacts.ArgumentPushed | terminfo/terminfo.go:249-251 | `%?%p` enters the push-argument state |
| CapabilityFacts.PushSteps | terminfo/terminfo.go:367-369 | `%?` only returns to the initial state, and `%p` enters the push-argument state |
| CapabilityFacts.ArgumentTested | terminfo/terminfo.go:370-377 | pushing argument N and then `%t` selects the then-part exactly when the argument is nonzero |
| CapabilityFacts.TestStep | terminfo/terminfo.go:370-377 | `%t` on a pushed value undoes the push and selects a branch by that value |
| CapabilityFacts.IfThenElse | terminfo/terminfo.go:367-501 | `%?%pN%t A %e B %;` renders A when argument N is nonzero. When it is zero, B is rendered and the machine is left in the percent state |
| CapabilityFacts.ConditionEntered | terminfo/terminfo.go:367-377 | the condition prefix leaves the machine executing or skipping, by the argument |
| CapabilityFacts.ThenPartTaken | terminfo/terminfo.go:378-494 | a taken then-part is copied, and its else-part up to `%;` is skipped |
| CapabilityFacts.ElseEntered | terminfo/terminfo.go:378-380 | `%e` in the initial state starts skipping |
| CapabilityFacts.ElseThenLiteral | terminfo/terminfo.go:482-494 | after a skipped else-part, the text that follows `%;` is copied |
| CapabilityFacts.ThenPartSkipped | terminfo/terminfo.go:460-481 | a skipped then-part resumes at `%e`, copies the else-part and stops in the percent state at `%;` |
| CapabilityFacts.EndAfterElseDropsNextChar | terminfo/terminfo.go:366 | because `%;` in the percent state does nothing, the character following an executed else-part's `%;` is swallowed |
| CapabilityFacts.UnknownDirectiveDropped | terminfo/terminfo.go:381-383 | an unknown directive character is dropped and the machine returns to the initial state |
| CapabilityFacts.ComparisonPushesBit | terminfo/terminfo.go:262-303 | `%< %> %= %A %O` pop v1 then v2 and push 1 or 0 for v1 op v2 |
| CapabilityFacts.OperandMustBeInteger | terminfo/terminfo.go:262-342 | a string operand of a comparison or of `%m` panics |
| CapabilityFacts.RemainderStaysInPercent | terminfo/terminfo.go:313-342 | `%m` pushes the truncated remainder v1 % v2 and stays in the percent state; a zero divisor panics |
| CapabilityFacts.NotAndComplement | terminfo/terminfo.go:343-354 | `%!` pushes 0 for a positive value and 1 otherwise; `%~` pushes −v − 1 |
| CapabilityFacts.InertDirectives | terminfo/terminfo.go:306-312 | `%+ %- %/ %* %^ %& %|` and `%;` change nothing, not even the state |
| CapabilityFacts.IntegerText | terminfo/terminfo.go:411-424 | the characters inside `%{…}` accumulate the concatenated texts of 55 − c |
| CapabilityFacts.IntegerOfEight | terminfo/terminfo.go:355-424 | `%{8}` pushes −1 |
| CapabilityFacts.IntegerOpened | terminfo/terminfo.go:355-357 | `%{` followed by a character starts the accumulator with that character's text |
| CapabilityFacts.OneCharNumber | terminfo/terminfo.go:412-421 | a one-character `%{c}` parses to 55 − c |
| CapabilityFacts.IntegerClosed | terminfo/terminfo.go:412-419 | `}` with a parsable accumulator pushes its value and clears it |
| CapabilityFacts.EmptyInteger | terminfo/terminfo.go:413-415 | `%{}` is the "must be integer number" error |
| CapabilityFacts.CharDirective | terminfo/terminfo.go:240-248 | `%c` writes U+0080 for the integer 0 and panics for any other value |
| CapabilityFacts.IncrementArguments | terminfo/terminfo.go:358-362 | `%i` adds one to the first two arguments, wrapping like int64, and panics when they are not two integers |
| CapabilityFacts.PushArgument | terminfo/terminfo.go:456-459 | `%pN` pushes argument N and panics past the last argument |
| CapabilityFacts.DecimalArgument | terminfo/terminfo.go:236-239 | `%pN%d` writes argument N in decimal |
| CapabilityFacts.CharConstant | terminfo/terminfo.go:401-410 | `%'x'` pushes the one-character string x; any closing character other than `'` is the "must be closed" error |
| CapabilityFacts.DigitsIn | terminfo/terminfo.go:387-394 | the flags kept after `%:` are digits only, and never more than the text read |
| CapabilityFacts.FlagsCollected | terminfo/terminfo.go:386-400 | in the flags state only digits are kept; `+ - # space .` and every other character are dropped |
| CapabilityFacts.FlagsEmitted | terminfo/terminfo.go:395-398 | `%:flags%` formats the popped value with `%` and the kept digits, and resets the format |
| CapabilityExamples.ComparedSteps | terminfo/terminfo.go:262-303 | the comparison steps of `%{8}%<` on an integer a push the bit for a > −1 |
| CapabilityExamples.EightCompared | terminfo/terminfo.go:262-377 | `%{8}%<%t` on a pops a and continues executing when a > −1 |
| CapabilityExamples.LessThanEight | terminfo/terminfo.go:249-377 | the first test of `setab` (`%?%p1%{8}%<%t`) selects its first branch for every non-negative colour |
| CapabilityExamples.SetabEscaped | terminfo/terminfo.go:223-229 | the leading ESC and `[` are copied |
| CapabilityExamples.SetabLowWritten | terminfo/terminfo.go:236-239 | the first branch writes `4` and the colour in decimal |
| CapabilityExamples.SetabElseFlat | terminfo/terminfo.go:482-501 | setab's else-part has no directive that stops a skip |
| CapabilityExamples.FlatPieces | terminfo/terminfo.go:482-501 | the same, for each branch of setab's else-part |
| CapabilityExamples.SetabHighSkipped | terminfo/terminfo.go:460-501 | after the first branch, the rest of `setab` is skipped except its final `m` |
| CapabilityExamples.SetabOfNonNegative | terminfo/terminfo_test.go:42-53 | for every colour n ≥ 0, `setab` renders ESC `[4`, n in decimal, then `m` (ESC `[45m` for 5) |
| Termios.Clear | termios/termios.go:180-183 | `x &^ mask` clears the bits of mask and keeps every other bit |
| Termios.RawControl | termios/termios.go:183-184 | the raw control word has CS8 set and PARENB clear; every other bit is kept |
| Termios.Toggle | termios/termios.go:198-199 | `^=` flips bit b and keeps the other bits; doing it again restores the word |
| Termios.Set | termios/termios.go:200-201 | `\|=` sets bit b and keeps the other bits |
| Termios.ToggleTwice | termios/termios.go:198-199 | NoEcho or Cbreak with enable set, applied twice, restores the local word |
| Termios.RawModeIdempotent | termios/termios.go:180-184 | applying the raw-mode updates a second time changes no flag word |
| Termios.SpeedOf | termios/termios.go:154 | the stored speed is the CBAUD and CBAUDEX bits of the control word, and no other |
| Termios.WithSpeed | termios/termios.go:234-235 | the speed setter makes the CBAUD bits those of the new speed. Every other bit of the new speed is OR-ed in, and the old word's other bits are kept |
| Termios.SpeedReadBack | termios/termios.go:233-235 | for a speed within CBAUD, the getter reads back the speed set, and no other control bit changes |
| Termios.Termios.constructor | termios/termios.go:32-42 | a zero record with 32 zero control characters |
| Termios.Termios.GetInputFlags | termios/termios.go:264-266 | returns c_iflag and no error |
| Termios.Termios.GetOutputFlags | termios/termios.go:269-271 | returns c_oflag and no error |
| Termios.Termios.GetControlFlags | termios/termios.go:274-276 | returns c_cflag and no error |
| Termios.Termios.GetLocalModesFlags | termios/termios.go:279-281 | returns c_lflag and no error |
| Termios.Termios.GetLineDiscipline | termios/termios.go:284-286 | returns c_line and no error |
| Termios.Termios.GetControlCharacters | termios/termios.go:289-291 | returns a copy of all 32 control characters and no error |
| Termios.Termios.GetInputSpeed | termios/termios.go:294-296 | returns c_ispeed and no error |
| Termios.Termios.GetInputOutputSpeed | termios/termios.go:299-301 | returns c_ospeed and no error |
| Termios.CfGetOutputSpeed | termios/termios.go:150-156 | a nil record is the "must be initialized" error; otherwise the speed bits of c_cflag |
| Termios.CfGetInputSpeed | termios/termios.go:162-164 | the same as the output speed: it reads c_cflag, not c_ispeed |
| Termios.CfMakeRaw | termios/termios.go:176-189 | it clears the raw-mode bits of the input, output and local words and sets the control word to CS8 without parity. It sets VMIN to 1 and VTIME to 0, changes nothing else, and returns the ioctl's outcome |
| Termios.NoEcho | termios/termios.go:193-205 | enable flips ECHO and disable sets it; no other field changes |
| Termios.Cbreak | termios/termios.go:209-221 | enable flips ICANON and disable sets it; no other field changes |
| Termios.CfSetOutputSpeed | termios/termios.go:226-238 | it is rejected, with nothing changed, when the stored input speed fails the baud check. Otherwise it stores the speed in c_ospeed and in the control word's speed bits |
| Termios.CfSetInputSpeed | termios/termios.go:243-261 | it is rejected the same way. Speed 0 copies c_ospeed into c_ispeed. Any other speed is stored in c_ispeed and in the control word |

The specification functions without contracts of their own are the definitions the rows above are stated against:

- decoding: `TerminfoDecode.Decode`, `DecodeSections`, `Bools`, `Numbers` and `Strings`;
- the capability machine: `Capability.Step` and its state functions, `Directive`, `Run` and `Apply`;
- traces: `CapabilityTrace.Exec`;
- integer text: `Strconv.Itoa`.

## Left out

- The lookup of the database file (`ParseTerminfoFromEnv`, `ParseTerminfoFromPath`, terminfo.go:72-130). It reads environment variables and files; the model starts from the file's bytes.
- The capability name tables (`GetTerminfoBooleanCodes` and its two siblings). They are data in another file and are a parameter, `CapabilityNames`. An index past a table's end panics, as in Go.
- `fmt.Sprintf` is a foreign library and is the `Formatter` parameter. Only `%d` of an integer is defined, as its decimal text. The length `%l` pushes is taken from that parameter too.
- Go strings are UTF-8 byte strings and `range` walks their runes. The model treats a template as a sequence of characters, and each database byte as the character of the same code.
- TerminfoDecode.Decode: the model treats a slice's capacity as its length, so every read past the end of the entry is `Panic`. Go checks a two-index slice (terminfo.go:149-152, 155, 162, 176, 188) against the capacity of the buffer `ioutil.ReadFile` returns, which can exceed its length. For a file cut off inside the names, boolean or number section, Go may read that slack without a panic.
- Termios.Termios: Go's `c_cc` is a value array that is copied with the struct; the model's `cc` is one shared array. No modelled operation copies a `Termios`, so the difference is not visible here.
- The `ds` stack package becomes a sequence with its top at index 0; a pop from the empty stack is `Underflow`.
- Arguments of Go types other than int and string are not modelled. `%i` writes into the caller's variadic slice in Go; the model keeps its own copy of the arguments.
- The Go error types become message strings.
- The termios system calls are out of scope: `NewTermios`, `TcGetAttr`, `TcSetAttr`, `TcSendBreak`, `TcDrain`, `TcFlush`, `TcFlow` and `Reset`. So are the `origTermios` link and the `fd` parameters. The outcome of the final `TcSetAttr` of CfMakeRaw, NoEcho and Cbreak is the parameter `setAttr`.
- The terminal, line-editor, completion, history and command-line packages of the repository are not part of this model.
- Capability.ApplyCapability: the variable arrays are objects the method updates in place. The value stack and the result text are local sequences, as Go's are local to the call.
- CapabilityExamples.SetabOfNonNegative: stated for non-negative colours only. For a negative colour the first test fails and the later branches of `setab` run, and those are not traced.
- Device control beyond the five flag words is not modelled: modem lines, break and flow control.
