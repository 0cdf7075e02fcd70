/**
 * The request handler's argument normalisation: each query value is reduced to
 * its first element when it is an array, and the width is passed to `render` as
 * `parseInt(width) || undefined`.
 */
module Handler {
  import opened Wrappers
  import opened Text
  import opened ChatPreview

  /** A query parameter as the HTTP layer delivers it: missing, one string, or an array of them. */
  datatype QueryValue = Missing | Single(value: string) | Multiple(values: seq<string>)

  /** The query parameters `render` reads, after `messages` has been decoded to a message list. */
  datatype Query = Query(theme: QueryValue, width: QueryValue)

  /** An array is replaced by its first element (undefined for an empty array); anything else is kept. */
  function FirstValue(q: QueryValue): (r: Option<string>)
    ensures r.Some? <==> q.Single? || (q.Multiple? && q.values != [])
    ensures q.Single? ==> r == Some(q.value)
    ensures q.Multiple? && r.Some? ==> r.value == q.values[0]
  {
    match q
    case Missing => None
    case Single(v) => Some(v)
    case Multiple(vs) => if vs == [] then None else Some(vs[0])
  }

  /**
   * `parseInt(width)`: `parseInt` is left abstract (it also reads a "0x" prefix and
   * stops at the first character it cannot use), with None for NaN. An undefined
   * width is converted to the string "undefined", which parses to NaN.
   */
  function ParsedWidth(width: Option<string>, parseInt: string -> Option<int>): (r: Option<int>)
    ensures width == None ==> r == None
    ensures width != None ==> r == parseInt(width.value)
  {
    match width
    case None => None
    case Some(s) => parseInt(s)
  }

  /** `n || undefined`: NaN and 0 (also -0) are falsy and become undefined; every other number passes, negatives included. */
  function WidthArgument(parsed: Option<int>): (r: Option<int>)
    ensures r == None <==> parsed == None || parsed == Some(0)
    ensures r != None ==> r == parsed
  {
    match parsed
    case None => None
    case Some(n) => if n == 0 then None else Some(n)
  }

  /**
   * The document the handler renders for decoded `messages` and the query's theme
   * and width: it reads back as `render`'s values for the first theme value and the
   * normalised width.
   */
  function HandlerDocument(messages: seq<Message>, query: Query, parseInt: string -> Option<int>): (doc: string)
    ensures ReadDocument(doc)
         == Some(RenderSlots(messages, FirstValue(query.theme),
                             WidthArgument(ParsedWidth(FirstValue(query.width), parseInt))))
  {
    Render(messages, FirstValue(query.theme),
           WidthArgument(ParsedWidth(FirstValue(query.width), parseInt)))
  }

  /**
   * The handler's document holds the palette chosen by the query's first theme
   * value, the text of the normalised width, and the message rows.
   */
  lemma HandlerSlots(messages: seq<Message>, query: Query, parseInt: string -> Option<int>)
    ensures var theme := FirstValue(query.theme);
      ReadDocument(HandlerDocument(messages, query, parseInt))
         == Some(Slots(SelectPalette(theme).text, SelectPalette(theme).background,
                       WidthText(WidthArgument(ParsedWidth(FirstValue(query.width), parseInt))),
                       SelectPalette(theme).bubble, Rows(messages)))
  {
    ReadRender(messages, FirstValue(query.theme), WidthArgument(ParsedWidth(FirstValue(query.width), parseInt)));
  }

  /** A width that parses to 0 or NaN gives the default CSS width 800; any other parse result `n` gives `n / 2`. */
  lemma HandlerWidth(parsed: Option<int>)
    ensures ParseNumber(WidthText(WidthArgument(parsed)))
         == Some(if parsed == None || parsed == Some(0) then 800.0 else parsed.value as real / 2.0)
    ensures parsed == None || parsed == Some(0) ==> WidthText(WidthArgument(parsed)) == "800"
  {
    DefaultWidthText();
  }

  /** A negative width is passed through, so the container's CSS width is negative. */
  lemma NegativeWidthPassesThrough()
    ensures WidthArgument(Some(-600)) == Some(-600)
    ensures WidthText(WidthArgument(Some(-600))) == "-300"
  {
    assert NatText(3) == "3";
    assert NatText(30) == "30";
    assert NatText(300) == "300";
  }

  /** An array-valued theme uses its first element only. */
  lemma FirstThemeWins()
    ensures SelectPalette(FirstValue(Multiple(["dark", "light"]))) == DarkPalette
    ensures SelectPalette(FirstValue(Multiple(["light", "dark"]))) == LightPalette
  {
    assert "light"[0] != "dark"[0];
  }
}
