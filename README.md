# chat-preview document builder, in Dafny

chat-preview turns a chat transcript into a PNG. A request carries a JSON list of
messages (`nickname`, optional `avatar`, `content`), a theme name and a width.
`render` builds one self-contained HTML page from them. The handler loads that page
into a headless browser and screenshots its `#container` element.

This project models the text `render` produces exactly, within the limits listed under
"## Left out". `render` is a pure function on strings here. The page is the template
text with five values put into its holes:

- the text colour,
- the page background,
- `width / 2`,
- the message-bubble colour,
- the message rows.

A reader (`ReadDocument`) takes a page apart again. The main theorem is the contract
of `Render`: reading a rendered page gives back exactly those five values.
`ReadRender` spells the values out in terms of the palette, the width text and the
rows. The lemmas beside it say what the values are:

- the palette is dark exactly for the theme `"dark"`;
- the width is half the request, 800 by default;
- the rows are one per message, in order, with nothing between them;
- each avatar cell holds a style exactly when there is an avatar;
- nicknames and contents appear verbatim;
- the fixed chrome is always there.

The handler's argument normalisation is modelled too: arrays are reduced to their
first element, and the width becomes `parseInt(width) || undefined`.

Modules:

- `Wrappers` (`wrappers.dfy`): `Option`, which stands for `undefined`, for NaN and for readers that can fail.
- `Text` (`text.dfy`): the decimal text JavaScript prints for half of an integer, with a reader proved to invert it; ASCII upper-casing; `join('')` as `Concat`; prefix, suffix and substring facts.
- `ChatPreview` (`chat_preview.dfy`): `Message` (the message record: `nickname`, optional `avatar`, `content`), the palettes, the rows, the template (`Template`, `Fill`, `Read`), `Render` and its properties.
- `Handler` (`handler.dfy`): query normalisation and the document the handler asks for.

Three behaviours of the code shape the model:

- The code does not escape `nickname`, `content` or `avatar`. The model inserts them verbatim (`RowShowsMessage`).
- `render` falls back to width 1600 only when the width is undefined. A width that parses to 0 or NaN reaches that default through the handler's `|| undefined`. A negative width passes through and gives a negative CSS width (`NegativeWidthPassesThrough`).
- An empty nickname does not fail. Its avatar text is `String(undefined).toUpperCase()`, which is `"UNDEFINED"` (`AvatarLabel`).

## Model

| member | source | states |
|---|---|---|
| `ChatPreview.Message` | api/index.ts:5-9 | The `Message` interface: a `nickname` string, an optional `avatar` string (`None` when the field is absent), and a `content` string. `AvatarAttribute`, `AvatarLabel` and `RowShowsMessage` state how each field is rendered. |
| `ChatPreview.Render` | api/index.ts:11-145 | `render(messages, theme, width)`. The page reads back as exactly the values `render` puts into its holes: the palette colours, the text of `width / 2`, and the message rows. `ReadRender` spells these values out and `RenderKeepsChrome` states the fixed chrome around them. |
| `ChatPreview.SelectPalette` | api/index.ts:13-23 | The dark palette (`white`, `#0a061a`, `#221f33`) is chosen if and only if the theme is exactly `"dark"`. Every other value, `undefined` included, gives the light palette (`black`, `#fdfcff`, `#f2f0fa`). |
| `ChatPreview.ThemeIsCaseSensitive` | api/index.ts:13 | `"DARK"`, `""`, `"light"` and `undefined` all select the light palette. |
| `ChatPreview.SlotColours` | api/index.ts:13-23 | The text, background and bubble values put into the page are `white`/`#221f33`/`#0a061a` if and only if the theme is `"dark"`, and `black`/`#f2f0fa`/`#fdfcff` otherwise. |
| `ChatPreview.ReadRender` | api/index.ts:37-144 | Reading a rendered page returns the following values. The palette's text colour is at `color:` (line 52). Its background is at `.container background:` (line 60). The text of `width / 2` is at `width:` (line 62). Its bubble colour is at `.content background:` (line 124). The concatenated message rows are inside the container (line 140). |
| `ChatPreview.ReadFill` | api/index.ts:37-144 | For any template, reading a filled template returns exactly the values that were put into its holes, provided no CSS value contains the character that ends it. |
| `ChatPreview.FillKeepsChrome` | api/index.ts:37-144 | Whatever is in the holes, a filled template starts with its preamble. It holds the container's opening tag and the header, and ends with the closing tags. |
| `ChatPreview.RenderSlots` | api/index.ts:12-23 | No colour contains `;` and the width text contains no `p`. So each value ends exactly where its CSS declaration ends, and the page reads back unambiguously. |
| `ChatPreview.RenderKeepsChrome` | api/index.ts:131-138 | Every page starts with `<!DOCTYPE html>` and contains `<div class="container" id="container">`. It contains the three header dots `#ff5f56`, `#ffbd2e` and `#27c93f`, and ends with `</html>`, whatever the messages, theme and width. |
| `ChatPreview.HeaderHasDots` | api/index.ts:132-139 | The header bar contains the three fixed-colour dots. |
| `ChatPreview.PreambleStartsWithDoctype` | api/index.ts:37 | The template starts with `<!DOCTYPE html>`. |
| `ChatPreview.CssWidth` | api/index.ts:11-12 | `realWidth`: 800 when no width is given (default 1600), and otherwise the number whose double is the given width. `WidthText` and `HalfTextRoundTrip` state its printed text. |
| `ChatPreview.WidthText` | api/index.ts:11-12 | The text at the width slot reads back as `width / 2`, with `width` defaulting to 1600 only when it is undefined. |
| `ChatPreview.SlotWidth` | api/index.ts:11-12 | The page's width value is `width / 2`. It is exactly `"800"` when the width is omitted. |
| `ChatPreview.DefaultWidthText` | api/index.ts:11-12 | With no width, the CSS width is 800 and is printed as `"800"`. |
| `ChatPreview.AvatarCell` | api/index.ts:26-30 | The `.avatar` cell contains the avatar URL verbatim when there is an avatar, and always contains its label text. `AvatarCellRoundTrip` states the whole cell. |
| `ChatPreview.AvatarCellRoundTrip` | api/index.ts:26-30 | Reading the avatar cell back gives exactly its attribute text and its label. With an avatar, that is the `background-image` style and no text. Without one, it is no attribute and the upper-cased initial (`AvatarAttribute`, `AvatarLabel`). |
| `ChatPreview.HasAvatar` | api/index.ts:27-30 | The truthiness of `message.avatar`: true if and only if the field is present and not the empty string. |
| `ChatPreview.FirstCharacterText` | api/index.ts:30 | `String(message.nickname[0])` is the first character of a non-empty nickname and `"undefined"` for an empty one. It is never empty. `AvatarLabel` states the upper-cased result. |
| `ChatPreview.AvatarAttribute` | api/index.ts:26-29 | The avatar cell has a style attribute if and only if `avatar` is present and non-empty. |
| `ChatPreview.AvatarAttributeRoundTrip` | api/index.ts:26-29 | The avatar URL is read back verbatim from `style="background-image: url(…);"` exactly when there is an avatar. Without one there is no style. |
| `ChatPreview.AvatarLabel` | api/index.ts:30 | The avatar cell's text is empty if and only if there is an avatar. Otherwise it is the upper-cased first character of `nickname`, or `"UNDEFINED"` when `nickname` is empty. |
| `ChatPreview.Row` | api/index.ts:24-35 | The row the `map` callback gives for one message opens the `.message` div and ends by closing it. `RowShowsMessage` states what lies between. |
| `ChatPreview.RowShowsMessage` | api/index.ts:25-35 | A message's row contains its avatar cell. It also contains `<div class="name">` with the nickname and `<div class="content">` with the content, both verbatim and unescaped. |
| `ChatPreview.RowTexts` | api/index.ts:24-35 | The `map` step gives one row per message, in input order. |
| `ChatPreview.Rows` | api/index.ts:24-36 | The `join('')` of the rows starts with the first message's row and ends with the last message's row. `RowsAt` and `RowsEmpty` state the whole structure. |
| `ChatPreview.RowsAt` | api/index.ts:24-36 | The message section is the rows of the messages before message `i`, then exactly `i`'s row, then the rows after it, with no separator. |
| `ChatPreview.RowsEmpty` | api/index.ts:24-36 | The message section is empty if and only if there are no messages, in which case the page is only the chrome. |
| `ChatPreview.PaletteColoursPlain` | api/index.ts:13-23 | No colour of either palette contains `;`. |
| `Handler.FirstValue` | api/index.ts:152-154 | An array-valued query parameter is replaced by its first element, and a single string is kept. A missing parameter or an empty array gives `undefined`. |
| `Handler.FirstThemeWins` | api/index.ts:153 | For an array-valued theme only the first element decides the palette. |
| `Handler.ParsedWidth` | api/index.ts:165 | `parseInt(width)`: an undefined width parses to NaN (`None`), and a given one to whatever `parseInt` returns for it. `HandlerWidth` states the resulting CSS width. |
| `Handler.WidthArgument` | api/index.ts:165 | `parseInt(width) \|\| undefined` is undefined if and only if the parse gives NaN or 0. Otherwise it is the parsed number, negatives included. |
| `Handler.HandlerWidth` | api/index.ts:165 | The CSS width is 800 when the width parses to NaN or 0, and `n / 2` for any other parse result `n`. |
| `Handler.HandlerDocument` | api/index.ts:151-165 | The page the handler passes to the browser is `render` applied to the first theme value and the normalised width. It reads back as `render`'s values for those arguments. |
| `Handler.HandlerSlots` | api/index.ts:151-165 | The handler's page holds the text colour, background and bubble colour of the palette chosen by the first theme value. It also holds the text of half the normalised width, and the message rows. |
| `Handler.NegativeWidthPassesThrough` | api/index.ts:165 | A width parsed as -600 is passed to `render` and printed as CSS width `-300`. |
| `Text.HalfText` | api/index.ts:62 | The printed `width / 2` consists only of digits, `-` and `.`. |
| `Text.HalfTextRoundTrip` | api/index.ts:62 | The printed `n / 2` reads back as exactly `n / 2`, for even and odd `n` and for either sign. |
| `Text.NatText` | api/index.ts:62 | The decimal text of a natural number is non-empty and all digits. It starts with `0` only for zero. |
| `Text.NatTextRoundTrip` | api/index.ts:62 | The decimal text of `n` denotes `n`. |
| `Text.UpperChar` | api/index.ts:30 | Upper-casing maps `a`–`z` to `A`–`Z` and leaves every other character alone. |
| `Text.ToUpper` | api/index.ts:30 | `toUpperCase` keeps the length and upper-cases each character. |
| `Text.Concat` | api/index.ts:36 | `join('')`: the empty list joins to the empty string, and a non-empty list's join starts with its first part. `ConcatAppend`, `ConcatAt`, `ConcatEnds` and `ConcatEmpty` state the rest. |
| `Text.ConcatEmpty` | api/index.ts:36 | `join('')` gives the empty string if and only if every part is empty. |
| `Text.ConcatAppend` | api/index.ts:36 | `join('')` of two lists is the `join('')` of the first followed by that of the second. |
| `Text.ConcatEnds` | api/index.ts:36 | `join('')` of a non-empty list starts with its first part and ends with its last part. |
| `Text.ConcatAt` | api/index.ts:36 | In `join('')`, part `i` sits between the parts before it and the parts after it. |

## Left out

- The browser pipeline (api/index.ts:155-171) is not modelled. This covers launching Chromium, `newPage`, `setContent`, `waitForNetworkIdle`, `waitForSelector('#container')` and the element screenshot. They are asynchronous calls into a foreign library with no logic of their own here.
- The `finally { browser?.close() }` cleanup (api/index.ts:172-174) is not modelled. It is un-awaited resource release around the browser, with nothing to compute.
- The Vercel plumbing is left out: reading `request.query`, `setHeader('content-type', 'image/png')` and `end`.
- `JSON.parse(messages) || []` (api/index.ts:165) is left out. The model takes the decoded `seq<Message>` directly. Malformed JSON, a JSON `null`, and entries whose `nickname` is not a string are therefore outside the model. An absent or `null` nickname makes `nickname[0]` throw. A number or boolean nickname gives `undefined` at index 0, and so the label `"UNDEFINED"`.
- `Handler.ParsedWidth`: `parseInt` is a function parameter and is not defined here. NaN is `None`. The model does not claim decimal-only parsing: `parseInt` also accepts a `0x` prefix and stops at the first character it cannot use. Very long digit strings that parse to `Infinity` are outside the `int` model.
- `ChatPreview.WidthText`: the width is an integer, because the handler passes only `parseInt` results or `undefined`. Non-integer widths from other callers of `render` are not modelled. The printed text matches JavaScript's Number-to-String only while `|width / 2|` is below 10^21 and `width` is a safe integer. Beyond that JavaScript uses exponent notation and rounding.
- `Text.UpperChar`: upper-casing covers ASCII `a`–`z` only. JavaScript's `toUpperCase` applies full Unicode case mapping, so for example `ß` becomes `SS`.
- `ChatPreview.AvatarLabel`: `nickname[0]` is the first UTF-16 code unit in JavaScript. Here it is the first Unicode scalar value, so a nickname that starts with an astral character, such as an emoji, is not modelled exactly.
- HTML escaping and URL validation are absent from the code, and the model does not pretend otherwise.
- CSS layout, the webfont and the visual effect of `transform: scale(2)` are not modelled. They are browser rendering, not string content.
- The count of `.message` rows in the final page is not claimed to equal the number of messages. Unescaped content can contain more such markup. `RowsAt` states the structure instead: exactly one row per message, in order.
