# ESE-Welcomer rendering, modelled in Dafny

ESE-Welcomer is a plugin for the Open Ticket Discord bot. It greets members who join a guild with a
message and an embed built from a JSON configuration. Admins can also preview that greeting with
`/welcome test` and re-read the configuration with `/welcome reload`. This project models the
plugin's pure logic in `index.ts`:

- **Placeholder substitution.** Templates are rendered with chained `String.prototype.replace`
  calls whose pattern is a string. `{user}` is replaced first and `{server}` second. Each call
  replaces only the *first* occurrence of its token. A later copy of the token is left as
  written. The replacement text goes through GetSubstitution, so `$&`, `` $` ``, `$'` and `$$`
  in a display name or guild name are expanded, as the code does. Section 22.1.3.19 of
  ECMA-262 (2024 edition) specifies `replace`, and section 22.1.3.19.1 specifies
  GetSubstitution.
- **Thumbnail and link resolution.** The thumbnail value `user-icon`, in any letter case, stands
  for the member's 512-pixel avatar. Any other value is kept only if it starts with `http`. The
  image, author icon and author link use the `http` rule alone.
- **The embed** (`BuildEmbed`). The slash-command embed worker and the member-join handler set
  the same fields in a different order. One function models both. It covers the author line
  (present only for a non-empty name, with `{user}` as the *display name*), the title (falls
  back to `Welcome!`, and only `{server}` is resolved), the description (`{user}` is the
  *mention*), the color (falls back to `#ff8c00`), the footer, the thumbnail, the image and the
  timestamp flag.
- **Messages.** The test reply joins the test title and the message content with no separator
  and then substitutes the tokens. It is ephemeral when built for the slash command. The join
  greeting uses the message content alone. The reload reply's text depends only on whether the
  reload succeeded. The join handler sends nothing when no configuration is loaded, or when the
  configured channel is missing or not text-based.
- **Configuration checking.** `welcomerConfigStructure` is modelled as a tree of rules. A generic
  checker walks that tree and reports problems by path. A reader turns JSON into the typed
  configuration record. A lemma shows that the checker accepts any JSON exactly when it reads as a
  configuration that keeps every length limit. A missing key, a value of the wrong kind (such as a
  timestamp that is not a boolean) or a length out of bounds is therefore always reported.

Modules: `Wrappers` (Option), `Strings` (startsWith, StringIndexOf, ASCII lower-casing), `Replace`
(GetSubstitution and `replace`), `Template` (the two tokens), `Settings` (configuration record
and member), `Embeds`, `Messages`, `ConfigChecker`.

Behaviour of the code that is easy to misread:
- Each token is replaced at its first occurrence only. A second `{user}` or `{server}` stays in the
  text.
- The default title is `Welcome!`, and no configured value is trimmed.
- Only a join greeting exists. Nothing is sent when a member leaves.
- The `user-icon` shortcut applies to the thumbnail only. The image, author icon and author link
  must be `http` addresses.

The member is abstract. It is the mention string (`member.toString()`), the display name, the
guild name, and the avatar URL that the chat library returns. That URL is an opaque input.

## Model

| member | source | states |
|---|---|---|
| Strings.IndexOf | index.ts:140-143 | The search behind `replace` finds no index exactly when the token does not occur. Otherwise it finds the leftmost occurrence. |
| Strings.IndexOfFindsFirstMatch | index.ts:140-143 | Whichever index is the leftmost occurrence, the search returns exactly that index. |
| Strings.ToLower | index.ts:94 | Lower-casing keeps the length, leaves no capital ASCII letter, keeps every other character, and turns each capital into the small letter whose capital it is. |
| Strings.ToLowerIdempotent | index.ts:94 | Lower-casing an already lower-cased string changes nothing. |
| Strings.ToLowerMatchesCaseVariants | index.ts:94 | `s.toLowerCase() === t` for a lower-case literal `t` holds exactly for the letter-case variants of `t`, in both directions. |
| Replace.Substitution | index.ts:133 | A replacement text without `$` is inserted as it is. |
| Replace.ReplaceFirst | index.ts:140-143 | A string without the pattern comes back unchanged. |
| Replace.FirstMatchAfter | index.ts:140-143 | In `a + token + b`, with no token inside `a`, the first match is the one right after `a`. This holds even when `b` contains the token again. |
| Replace.ReplaceFirstSplices | index.ts:140-143 | Replacing in `a + token + b` yields `a`, then the expanded replacement, then `b` untouched. |
| Replace.ReplaceFirstLiteral | index.ts:165-168 | With no `$` in the replacement, the splice is literal. Text outside the replaced span is unchanged, and any later token stays. |
| Replace.IndexOfBehindPrefix | index.ts:164-168 | A prefix that lacks the token's first character shifts the search result by its length and adds no match. |
| Replace.ReplaceFirstBehindPrefix | index.ts:164-168 | Such a prefix is kept as it is, and replacement acts only on the rest. |
| Replace.SubstitutionPlainPrefix | index.ts:133 | Replacement text before the first `$` is copied verbatim. |
| Replace.DollarAmpersandReinsertsMatch | index.ts:133 | A `$&` in a display name re-inserts the matched `{user}`. The name is not inserted literally. |
| Replace.SubstitutionKeepsLoneDollar | index.ts:133 | A `$` followed by anything other than `$`, `` ` ``, `&` or `'`, or a `$` at the end, is kept literally. |
| Replace.SubstitutionOfDollarPatterns | index.ts:133 | In replacement text, `$$` gives one `$`, `` $` `` the text before the match and `$'` the text after it. |
| Replace.DollarPatternsExpand | index.ts:140-143 | Replacing the first token in `a + token + b` by text starting with `$$`, `` $` `` or `$'` splices in a single `$`, a copy of `a` or a copy of `b`. |
| Template.Render | index.ts:140-143 | Text without `{user}` only goes through the `{server}` replacement. Text with neither token comes back unchanged. |
| Template.RenderServer | index.ts:139 | Text without `{server}` comes back unchanged. |
| Template.RenderWithoutTokens | index.ts:140-143 | A template with neither token renders to itself, whatever the member and guild. |
| Template.RenderReplacesFirstUser | index.ts:140-143 | The first `{user}` becomes the user text. Only then is `{server}` looked for, in the result. |
| Template.RenderServerReplacesFirst | index.ts:146 | The first `{server}` becomes the guild name, and the rest of the text is kept. |
| Template.RenderBehindPrefix | index.ts:164-168 | Text without `{` in front of a template passes through rendering untouched. |
| Template.RenderLeavesSecondUser | index.ts:254-257 | `{user} {user}` renders to the user text followed by ` {user}`, so the second token survives. |
| Template.GreetingExample | index.ts:164-168 | `Hi ` glued to `there {user}` renders to `Hi there @Bob` for mention `@Bob`. |
| Embeds.OrElse | index.ts:139 | `s || fallback` on strings gives one of the two, keeps a non-empty `s`, and is empty only when both are. |
| Embeds.HttpOnly | index.ts:134-135 | A link is kept exactly when it starts with `http`. |
| Embeds.ThumbnailUrl | index.ts:93-98 | Any case spelling of `user-icon` gives the avatar URL. Any other value gives itself if it starts with `http`, and nothing otherwise. |
| Embeds.Thumbnail | index.ts:148-149 | A thumbnail is set exactly when the resolved URL is non-empty, and it is that URL. That URL is the avatar or an `http` address. |
| Embeds.AuthorLine | index.ts:131-137 | The author line is present exactly when the name is non-empty. Icon and link are each kept exactly when they start with `http`, and are absent otherwise. |
| Embeds.Title | index.ts:139 | An empty configured title shows `Welcome!`. A configured title without `{server}` is shown as written. |
| Embeds.BuildEmbed | index.ts:127-153 | Author present iff a name is set, with icon and link kept iff `http` and absent otherwise; title `Welcome!` when unset; color configured or `#ff8c00`; footer present iff set, and verbatim without `{server}`; thumbnail set iff the resolved URL is non-empty, and equal to it; image kept iff it starts with `http`; timestamp iff the flag is set; every link is an `http` address or the avatar. |
| Embeds.TitleResolvesServer | index.ts:139 | The title's first `{server}` becomes the guild name, and the text around it is kept. |
| Embeds.FooterResolvesServer | index.ts:146 | The footer's first `{server}` becomes the guild name, and the text around it is kept. |
| Embeds.DescriptionWithoutUser | index.ts:140-143 | A description without `{user}` only has its `{server}` resolved. |
| Embeds.AuthorNameWithoutUser | index.ts:131-133 | An author name without `{user}` only has its `{server}` resolved. |
| Embeds.TitleAndFooterIgnoreMember | index.ts:268 | Title and footer depend on the guild name only, never on the mention or the display name. |
| Embeds.TitleKeepsUserToken | index.ts:253 | A non-empty title without `{server}` is shown exactly as configured, including any `{user}`. |
| Embeds.DescriptionMentionsMember | index.ts:254-257 | The description's first `{user}` becomes the mention, and then `{server}` is resolved. |
| Embeds.AuthorNameUsesDisplayName | index.ts:260-266 | The author name's first `{user}` becomes the display name, not the mention. |
| Embeds.MentionAndDisplayNameKeepTheirPlaces | index.ts:252-274 | The description never depends on the display name. The author line never depends on the mention. |
| Embeds.ImageHasNoUserIconShortcut | index.ts:151 | `user-icon`, in any case, as the image value sets no image. |
| Embeds.HttpIsNotUserIcon | index.ts:94-97 | The two thumbnail rules never both apply. An `http` value is no spelling of `user-icon`. |
| Embeds.UserIconExamples | index.ts:94-96 | `user-icon`, `USER-ICON` and `User-Icon` all give the avatar URL. |
| Embeds.AddressExamples | index.ts:97 | `ftp://x` gives nothing, and `https://x` gives itself. |
| Messages.TestMessage | index.ts:160-170 | The test reply carries the welcome embed, is ephemeral iff built for the slash command, and shows the glued text verbatim when it has no token. Glued text without `{user}` only has its `{server}` resolved. |
| Messages.JoinMessage | index.ts:277-282 | The join greeting carries the welcome embed, is not ephemeral, and shows the message content verbatim when it has no token. Content without `{user}` only has its `{server}` resolved. |
| Messages.JoinContentReplacesFirstUser | index.ts:278-280 | The greeting's first `{user}` becomes the mention, and `{server}` is resolved after it. |
| Messages.JoinContentResolvesServer | index.ts:278-280 | In a greeting without `{user}`, the first `{server}` becomes the guild name and the text around it is kept. |
| Messages.ReloadMessage | index.ts:175-178 | The success text appears iff the reload succeeded, and the failure text iff it failed. The reply is ephemeral iff built for the slash command. |
| Messages.OnMemberJoin | index.ts:245-250 | A greeting is produced iff a configuration is loaded and its channel exists and is text-based. The greeting is the join message. |
| Messages.TestContentResolvesServer | index.ts:164-168 | In glued text without `{user}`, the first `{server}` becomes the guild name and the text around it is kept. |
| Messages.TestContentReplacesFirstUser | index.ts:164-168 | The first `{user}` of the glued title and content becomes the mention, wherever the seam between the two lies. `{server}` is then resolved. |
| Messages.TestContentIsTitleThenGreeting | index.ts:164-168 | When the test title has no `{`, the test reply's text is the title followed by exactly the join greeting's text. |
| Messages.EmptyTestTitleGivesGreeting | index.ts:164 | With an empty test title, the test reply and the join greeting have the same text. |
| Messages.ConcatenationBeforeSubstitution | index.ts:164-168 | Title `Hi ` and content `there {user}` greet mention `@Bob` as `Hi there @Bob`. |
| Messages.TitleTokenShadowsContentToken | index.ts:164-168 | A `{user}` in the test title takes the mention, so the content's `{user}` stays literal. |
| ConfigChecker.Check | index.ts:59-85 | Every problem found in a value is reported at a path below the value's own path. |
| ConfigChecker.CheckChildren | index.ts:60-84 | Every problem found among an object's keys is reported below that object's path. |
| ConfigChecker.CheckChildrenClear | index.ts:60-84 | An object passes exactly when every listed key is present and passes its rule. |
| ConfigChecker.StringChildPasses | index.ts:61-63 | A key passes a string rule exactly when it holds a string whose length is within the inclusive bounds. |
| ConfigChecker.BooleanChildPasses | index.ts:80 | A key passes a boolean rule exactly when it holds a boolean. |
| ConfigChecker.WrongKindReported | index.ts:59-85 | A value that is not a string, a boolean or an object is reported when its rule asks for one. |
| ConfigChecker.AuthorAccepted | index.ts:67-73 | Any JSON passes the author rule exactly when it reads as an author whose name has at most 256 characters. |
| ConfigChecker.EmbedAccepted | index.ts:65-82 | Any JSON passes the embed rule exactly when it reads as an embed that keeps all its limits, with a boolean timestamp. |
| ConfigChecker.ConfigFieldsAccepted | index.ts:60-84 | The configuration's four keys pass exactly when they are present, of the right kind and within their limits. |
| ConfigChecker.CheckerAcceptsExactlyReadable | index.ts:59-85 | Any JSON passes exactly when it reads as a configuration that keeps every limit. |
| ConfigChecker.ReadConfigJson | index.ts:7-25 | Reading a configuration's own JSON gives the configuration back. |
| ConfigChecker.WrongEmbedKindsRejected | index.ts:65-80 | An `embed` that is not an object, or a `timestamp` that is not a boolean, fails the check. |
| ConfigChecker.AuthorCheckedExactly | index.ts:67-73 | The author object passes iff its name has at most 256 characters. |
| ConfigChecker.EmbedCheckedExactly | index.ts:65-82 | The embed object passes iff author, title (256), description (4096), color (7) and footer (2048) keep their limits. |
| ConfigChecker.CheckerAcceptsExactlyValid | index.ts:59-85 | A configuration's JSON passes iff the channel id has at least 15 characters, the test title at most 200, the content at most 2000, and the embed is valid. |
| ConfigChecker.MissingKeyReported | index.ts:61-83 | A required key that is absent is reported as missing, at its own path. |
| ConfigChecker.MissingEmbedReported | index.ts:65 | A configuration without `embed` is reported as missing it. |

## Left out

- Registration with the host framework is not modelled: the config, checker, slash command,
  builders and responder, and the module augmentation (index.ts:32-57, 87-90, 101-121). It is
  declarative glue over an API that is not part of this model.
- The command responder is not modelled (index.ts:183-237). This covers the slash-only guard,
  permission resolution, the admin gate, `config.init()` and the console logging with ANSI
  colors. It is asynchronous host I/O. Its only logic branches on outcomes the host supplies.
  The reload reply it sends is modelled as `ReloadMessage`.
- discord.js calls are not modelled: `EmbedBuilder` (including its field validation and its
  conversion of hex colors to integers), `displayAvatarURL` (the avatar URL is an input),
  `channels.cache.get` and `isTextBased` (a map of channels is passed in), and `send` with its
  swallowed failure.
- The timestamp's value is not modelled. `new Date()` is a clock, so only whether a timestamp is
  set is modelled.
- The check on `utilities.project` is not modelled (index.ts:4). It tests the host environment.
- Strings.ToLowerMatchesCaseVariants: `toLowerCase` is modelled on ASCII letters only. For the
  comparison with `user-icon` this gives the same answer as full Unicode lower-casing, because no
  other character lower-cases to one of that word's letters. That fact rests on Unicode tables
  that are not part of this model.
- Strings are sequences of Unicode scalar values. JavaScript counts UTF-16 code units, so length
  limits differ for characters outside the Basic Multilingual Plane.
- Renders take the typed configuration record that `ESEWelcomerConfig` declares. JSON with an absent
  or mistyped key reads as no configuration in this model. The host would still load it, and
  rendering it with absent or mistyped fields is not modelled. JSON that only breaks a length limit
  reads as a configuration that fails `ValidConfig`, and the renders accept it as they are.
- ConfigChecker.Check: the host's checker classes are not part of this model. Its semantics are
  assumed as follows: required keys, inclusive length bounds, no check for extra keys, and one
  problem per violated rule. Their messages and priorities are not modelled.
