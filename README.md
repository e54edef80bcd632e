# discordgo-utils command dispatch, modelled in Dafny

This project models the command layer of the `dgutils` Go package. That layer sits on
top of the discordgo client library. It covers:

- **Building a command from a handler function.** `Command`, `PredicatedCommand` and
  their panicking `Must…` forms check the function's signature. Parameters 0 and 1 must
  be the session and the message-create event. Every later parameter must have a
  supported kind. A slice is allowed only as the last parameter, with a supported
  element kind.
- **The command predicate.** `CmdPredicate.Validate` checks the permission bitfield:
  the author must own the guild or hold a role sharing a bit with it. It then lets the
  custom check veto the message.
- **Invocation.** `FnCmd.Invoke` checks the predicate, then the argument count (a
  trailing slice absorbs any surplus). It then converts every token with `tryConvert`,
  in order, and stops at the first failure:
  - strings are taken as is;
  - numbers and booleans are read as JSON literals into the parameter's Go type, with its
    range;
  - channels and users are found by mention (`<#id>`, `<@!id>`) or else by raw id.
- **The register.** `CmdRegister` holds commands by name and aliases one hop deep.
  `Add` and `Alias` refuse a name that already resolves. `Alias` also refuses a
  destination that does not resolve. `Handle` ignores the bot's own messages and messages
  without the prefix. It splits the content on single spaces, strips the prefix from the
  first token, looks the command up and invokes it on the remaining tokens. On failure it
  calls the command's own error handler, or else the register-wide one.
- **The two helpers in `misc.go`.** `MemberHasPermissions` checks the cached member
  first, then the remote one, and scans the roles in order. `IsOwner` compares the guild
  owner.
- **The error types in `errors.go`.**

Reflection is replaced by a closed description of Go types (`Types.Type`) and of
converted values (`Types.Val`). The client is replaced by a value holding the lookups
the code makes, as maps (`Discord.Session`). Error handlers are identified by name.
`Invoke` and `Handle` return what they did as a value (`Invocations.Outcome`,
`Registry.Dispatch`). The one mutable entity, the register, is a class whose methods
update its two maps.

`Invocations.InvocationWith` describes `Invoke` for any token converter. A converter is
sound (`Invocations.Sound`) when it is defined on every legal parameter type and returns
values of that type. `Invocations.Invocation` is `InvocationWith` applied to
`tryConvert`, which `Invocations.TryConverterSound` shows to be sound. The lemmas about
the outcome of `Invoke` hold for every sound converter, so for `tryConvert` in
particular.

The model follows the Go code where it behaves oddly. Examples:

- an `Alias` error names the alias, not the missing destination;
- a lookup follows one hop only: after `Alias(name, dest)` succeeds, `name` resolves to whatever the command map holds under `dest` itself. When `dest` is an alias, that is usually nothing;
- `Add` on a name that is a dangling alias succeeds, yet the name still resolves through the alias. So if `dest` is such a name and was added as a command, an alias to it resolves to that command;
- a command with no parameters always fails, on the index `-1`;
- a channel token that is not a mention is first looked up as channel `"0"`.

## Model

| member | source | states |
|---|---|---|
| Decimal.NatTextRoundTrip | commands.go:376 | The decimal text of a natural number is non-empty and all digits, starts with `0` only for zero, and reads back as the number |
| Decimal.IntTextHasNoSpace | errors.go:18 | The `%d` text of an integer contains no space |
| Decimal.IntTextRoundTrip | errors.go:18 | The `%d` text of an integer parses back to that integer |
| Text.IndexOf | commands.go:310 | The result is the first position where the pattern occurs, or none when it never occurs |
| Text.RemoveFirst | commands.go:310 | Replacing the first occurrence with "" leaves the text alone when there is none; otherwise the result, with the pattern put back at the first occurrence's position, is the text |
| Text.Split | commands.go:308 | Splitting on a separator yields at least one piece, and no piece contains the separator |
| Text.JoinSplit | commands.go:308 | Joining the pieces back with the separator gives the original text |
| Text.SplitPiece | commands.go:308 | A text without the separator splits into itself alone |
| Text.SplitAfterPiece | commands.go:308 | A separator-free piece followed by the separator splits off as the first piece |
| Text.SplitJoin | commands.go:308 | Splitting the join of separator-free pieces gives back exactly those pieces, empty ones included |
| Text.FirstPieceKeepsPrefix | commands.go:307-308 | A text starting with a separator-free prefix has a first piece that starts with that prefix |
| Text.RemoveLeadingPrefix | commands.go:310 | When the text starts with the pattern, removing the first occurrence drops exactly that prefix |
| Errors.ArgCountMismatchRoundTrip | errors.go:13-19 | The argument-count message gives back the expected and actual counts it was made from |
| Errors.ParseCounts | errors.go:18 | Two numerals around the fixed words of the message read back as their values |
| Errors.FirstSpace | errors.go:18 | The first space after a space-free numeral is right after it |
| Errors.MessagesTellTypesApart | errors.go:13-37 | Two errors with the same message are of the same kind (count mismatch, access denied or unmarshal error) |
| Errors.CmdError.Error | errors.go:17-37 | A count mismatch's text starts with "expected ", a refusal's is "access denied", and an unmarshal error's is the unmarshal prefix followed by its cause's text; each prefix belongs to one type only |
| Errors.Cause.Message | commands.go:381-401 | tryConvert's own failures start with "tryConvert: " and no decoding failure does; the channel and user texts are fixed, and a pointer failure names the type |
| Convert.SplitDigitsSpec | commands.go:375 | The digit run at the head of the text and the rest make up the text, the run is all digits, and it is maximal |
| Convert.SplitDigitsOf | commands.go:375 | Digits followed by a text not starting with a digit split back into exactly those two parts |
| Convert.DecodeJson | commands.go:408-414 | `null` gives the zero value of every kind; a bool decodes iff the literal is `null`, `true` or `false`, and to the literal's value; `true`/`false` fail for other kinds; a decoded integer is a JSON integer in its type's range that reads back as the value; a decoded float is the decoder's reading of a JSON number; any other text fails, reporting the token |
| Convert.DecodeInteger | commands.go:408-414 | A literal decodes iff it is a JSON integer, carries no sign for an unsigned kind and its value fits the kind; the result is that value; otherwise the decode fails on the token |
| Convert.JsonIntegerParses | commands.go:409 | Every JSON integer literal parses as a decimal integer |
| Convert.LookupChannel | commands.go:372-384 | The channel is found iff the mention's id or the raw token names a channel; the scanned id's channel is returned first, the raw token's only when the id names none; otherwise the error is "cannot parse channel" |
| Convert.LookupUser | commands.go:385-397 | The user is found iff the `<@!id>` mention's id or the raw token names a user; the scanned id's user is returned first, the raw token's only when the id names none; otherwise the error is "cannot parse user" |
| Convert.TryConvert | commands.go:353-417 | A converted value has the parameter's type, a string parameter takes the token unchanged, and a pointer to anything but a channel or user always fails |
| Convert.IntTextIsJsonInteger | commands.go:409 | The `%d` text of any integer is a JSON integer with no surrounding space that reads back as the integer and is not `null`, `true` or `false` |
| Convert.BareToken | commands.go:409 | A token that starts with a sign or digit and ends with a digit has no white space to trim and is not `null`, `true` or `false` |
| Convert.NumberDecodes | commands.go:408-414 | A bare JSON number decodes for a numeric kind as the integer decoder or the float decoder reads it |
| Convert.NumberConverts | commands.go:408-414 | A JSON number token converts to a numeric parameter exactly as the JSON decoder of that kind reads it |
| Convert.IntegerTextConverts | commands.go:408-414 | The `%d` text of an integer converts to an integer parameter iff the integer fits the type, and then to that integer |
| Convert.IntegerDecodes | commands.go:409-414 | The `%d` text of an integer decodes to that integer iff it fits the kind, and is refused otherwise |
| Convert.MentionRoundTrip | commands.go:375 | Scanning a mention written with the decimal text of an id below 2^64 recovers that id |
| Convert.MentionId | commands.go:375 | The scanned id fits in 64 bits, is 0 for a token without the marker, and is non-zero only when a digit follows the marker |
| Convert.MentionOverflow | commands.go:375 | A mention whose id needs more than 64 bits scans as 0 |
| Convert.ChannelMentionConverts | commands.go:372-384 | A `<#id>` mention of a known channel converts to that channel |
| Convert.UserMentionConverts | commands.go:385-397 | A `<@!id>` mention of a known user converts to that user |
| Convert.NonMentionFindsChannelZero | commands.go:374-376 | A channel token that is not a mention is first looked up as channel "0", and finds it when it exists |
| Convert.NonMentionFindsUserZero | commands.go:387-389 | A user token that is not a `<@!` mention is first looked up as user "0", and finds it when it exists |
| Convert.PlainIdFindsChannel | commands.go:375-379 | A raw channel id, not a mention, converts to that channel when there is no channel "0" |
| Convert.PlainIdFindsUser | commands.go:388-392 | A raw user id, not a mention, converts to that user when there is no user "0" |
| Convert.TestedInteger | commands_test.go:20-21 | "8192" converts to uint 8192 and "-3" to int -3 |
| Convert.RejectedInteger | commands.go:408-414 | "-3" is refused for uint and "256" for uint8 |
| Convert.LiteralExamples | commands_test.go:22-24 | "yes" converts to a string, "true"/"false" to booleans; "yes" is refused for int, and `null` leaves an int at zero |
| Convert.FractionIsJsonNumber | commands.go:409 | A JSON integer, a dot and a digit run form a JSON number |
| Convert.FractionConverts | commands.go:408-414 | A decimal fraction converts to a float parameter as the float decoder reads it at the parameter's width, and fails when the decoder refuses it |
| Convert.TestedFloat | commands_test.go:25 | "2.3" converts to the float64 the decoder reads from it |
| Misc.MemberLookup | misc.go:17-22 | The member is found iff the state cache or the remote lookup has it, and the cached member takes precedence |
| Misc.IsOwner | misc.go:40-47 | An unknown guild is an error answering false; otherwise the answer is whether the user owns the guild |
| Misc.RolesCheckScan | misc.go:24-34 | The role scan answers true iff some role, after only known non-matching ones, shares a bit with the mask; it fails on the first unknown role reached, and answers false without error iff every role is known and shares no bit |
| Misc.ShiftScan | misc.go:24-34 | Passing over a known role that shares no bit moves the scan one place right |
| Misc.MemberHasPermissions | misc.go:16-35 | The loop's answer equals the member lookup (cache, then remote) followed by the role scan |
| Misc.PermissionCheckGrants | misc.go:16-35 | The check answers true iff the member is found and some role reached before any unknown role shares a bit with the mask |
| Misc.ZeroMaskNeverGrants | misc.go:29 | A zero mask never grants |
| Misc.NoRolesNoPermission | misc.go:24-34 | A member with no roles holds no permission and gets no error |
| Commands.Predicate.Validate | commands.go:177-189 | A message passes iff (no permission bits are required, or the author owns the guild, or holds a granting role) and the custom check does not veto; an empty predicate always passes |
| Commands.FirstProblemScan | commands.go:112-125 | The parameter scan succeeds iff every parameter is acceptable, and otherwise reports the first unacceptable one |
| Commands.SignatureAccepts | commands.go:95-127 | A signature is accepted iff it is a function whose first two parameters are the session and the message event and whose later parameters are acceptable; the parameters kept are the later ones; a non-function and the first bad parameter are reported |
| Commands.CmdParamsOk | commands.go:112-125 | Every command's parameters have legal kinds, and only the last may be a slice |
| Commands.Command | commands.go:95-127 | Builds the command, with an empty predicate, iff the signature is accepted, and otherwise returns the signature error |
| Commands.PredicatedCommand | commands.go:134-145 | Like Command, with the given predicate installed on success |
| Commands.MustCommand | commands.go:150-156 | For an accepted signature, returns the command Command builds |
| Commands.MustPredicatedCommand | commands.go:161-172 | For an accepted signature, returns the command PredicatedCommand builds |
| Invocations.TryConverterSound | commands.go:353-417 | Conversion is defined for every legal parameter type, and every converted value has that type |
| Invocations.ParamsOkSuffix | commands.go:224-249 | The parameters still to be converted remain acceptable |
| Invocations.PastChecks | commands.go:209-249 | Once the predicate and count checks pass, the outcome is the conversion of all tokens |
| Invocations.SingleStep | commands.go:240-248 | A single parameter consumes one token and prepends its value |
| Invocations.SliceStep | commands.go:229-239 | A slice parameter is the last one and consumes every remaining token |
| Invocations.EachStep | commands.go:232-238 | Converting the slice tokens is one conversion followed by the rest |
| Invocations.ConvertSlice | commands.go:229-239 | The inner loop converts every remaining token to the element type, stopping at the first failure |
| Invocations.SliceAdvances | commands.go:233-237 | A slice token that converts appends its value to those converted before it |
| Invocations.SliceStops | commands.go:233-236 | A slice token that does not convert ends the slice with its error |
| Invocations.ConvertTokens | commands.go:222-249 | The outer loop produces exactly the specified conversion of the arguments |
| Invocations.Invoke | commands.go:201-252 | Invoke's result is the specified invocation outcome |
| Invocations.ConvertEachScan | commands.go:232-238 | The slice conversion succeeds iff every token converts, its values are those conversions in order, and a failure is the first token's failure |
| Invocations.SingleFirst | commands.go:240-248 | A leading single parameter that converts contributes its value ahead of the rest |
| Invocations.ConvertArgsSucceeds | commands.go:222-249 | The conversion succeeds iff every token converts to the type of its position (a single parameter, or the trailing slice's element) |
| Invocations.ConvertArgsSingles | commands.go:240-248 | On success there is one value per parameter, and each single parameter's value is its token converted |
| Invocations.ConvertArgsSlice | commands.go:229-239 | On success the trailing slice holds the conversion of every token from its position on |
| Invocations.ConvertArgsTyped | commands.go:222-249 | On success every value has its parameter's type |
| Invocations.ConvertArgsFirstFailure | commands.go:233-246 | A failure is the failure of the first token that does not convert |
| Invocations.InvokeCalls | commands.go:209-249 | For any sound converter (tryConvert included): a vetoed message is AccessDenied; a command without parameters fails on index -1; a wrong count is ArgCountMismatch; the function is called iff the predicate passes, the count fits and every token converts |
| Invocations.InvokeArguments | commands.go:222-250 | For any sound converter: a call receives one value per parameter, each of its parameter's type, with every single parameter's value converted from its token |
| Invocations.InvokeSliceArgument | commands.go:229-239 | For any sound converter: a trailing slice argument holds one value per remaining token, each that token converted to the element type, in order |
| Invocations.InvokeFirstFailure | commands.go:222-249 | For any sound converter: once the predicate and count checks pass, an invocation that does not call the function fails with an UnmarshalError carrying the cause of the first token that does not convert, and every earlier token converted |
| Invocations.AllConverted | commands_test.go:39-49 | When every token converts, the call receives the single values followed by one slice of the trailing values |
| Registry.CommandLine | commands.go:308-310 | There is one argument per space-separated piece after the first |
| Registry.CommandLineOf | commands.go:307-310 | A message made of prefix+name and space-free tokens reads back as that name and those tokens |
| Registry.StripPrefix | commands.go:310 | Cutting the prefix out of prefix+name leaves the name |
| Registry.CmdRegister.Register | commands.go:343-348 | A new register has no commands and no aliases |
| Registry.CmdRegister.Canon | commands.go:257-263 | A name with a non-empty alias target is that target; any other name is itself |
| Registry.CmdRegister.Get | commands.go:269-271 | The command stored under the canonical name, if any |
| Registry.CmdRegister.Add | commands.go:273-279 | A name that already resolves is refused and nothing changes; otherwise the command is stored under the name; aliases are untouched; the alias invariant is kept and no resolving name changes its command |
| Registry.CmdRegister.Alias | commands.go:281-290 | A destination that does not resolve is refused with an error naming the alias; a name that resolves is refused; otherwise the alias is recorded and resolves one hop to what is stored under the destination; commands are untouched; the invariant and every resolving name are kept |
| Registry.CmdRegister.Handle | commands.go:298-323 | Handle's result is the specified dispatch of the message |
| Registry.HandleDispatches | commands.go:307-321 | A prefixed message from someone else invokes the command its name resolves to on exactly the following tokens, or does nothing for an unknown name; a failure goes to the command's handler, else the register's, else nowhere |
| Registry.JoinKeepsPrefix | commands.go:307-308 | Joined pieces start with any prefix of the first piece |
| Registry.JoinKeepsFirst | commands.go:308 | Joined pieces start with the first piece |
| Registry.HandleIgnores | commands.go:304-307 | The bot's own messages and messages without the prefix are ignored, and only a prefixed message from someone else naming a known command is dispatched |

## Left out

- The network and the state cache: the session's lookups (`Channel`, `User`, `Guild`, `State.Member`, `GuildMember`, `State.Role`) are maps, and any failed lookup counts as a missing key.
- Reflection: function values, parameter types and converted values are a closed description. Kinds outside it are left out: complex numbers, and types named after a basic kind, such as a custom string type.
- Nested slices (`[][]T`): parameter types hold at most one slice level.
- Variadic functions: the source does not support them either.
- Parsing float text is the decoder parameter `pf`. The model fixes which tokens are JSON numbers and the width used. The rounding of a decimal to the nearest float32 or float64 is not modelled.
- Exact error texts from `encoding/json`, `fmt.Errorf` and recovered panics: a failure records the token or a cause, not Go's wording. The texts of `errors.go` are modelled.
- Panics inside the called function, the custom check or the session: the model only has the index panic of a command without parameters.
- The `Handler` closure (commands.go:331-338): it only forwards to `Handle`.
- Convert.MentionId: `fmt.Sscanf`'s handling of white space is not modelled. It skips spaces before the mention digits, and fails when a newline comes before them. A mention token is taken to start exactly with `<#` or `<@!`, followed directly by the digits.
- Commands.Predicate.Validate: the custom check does not receive the predicate itself as an argument, because it is constant per command.
- Commands that are not `FnCmd` values, and nil commands stored in the map: `Cmd` is the type of commands `Command` can build.
- Aliasing of `*FnCmd` pointers: commands are values, so no command is changed after it is registered.
- Concurrency: `Handle` running on several goroutines at once, sharing the register, is not modelled.
- The call of `fn` itself (`reflect.Value.Call`) is not modelled: a successful invocation is reported as the list of values it would pass.
- The full argument list of the `TestInvoke` test is not one lemma. Invocations.AllConverted, Convert.IntegerTextConverts, Convert.LiteralExamples and Convert.FractionConverts cover its parts.
- The `3.1415926` float vector of the `TestTryConvert` test: its value depends on the float decoder, so Convert.FractionConverts covers it generally.
- Go's `int` and `uint` are taken to be 64 bits wide, as on 64-bit platforms. This fixes their ranges in `Types.InRange` and the `bv64` permission masks. On a 32-bit platform `"3000000000"` would be refused for `int`, which the model does not capture.
