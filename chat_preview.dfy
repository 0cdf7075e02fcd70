/**
 * The document builder of chat-preview: `render` turns a chat transcript, a theme
 * name and a pixel width into one self-contained HTML document whose element
 * `#container` is later screenshotted. The document is modelled as the exact
 * concatenation of the template's fixed pieces and the values put into its holes.
 */
module ChatPreview {
  import opened Wrappers
  import opened Text

  /** One chat entry. `avatar == None` is a message without the optional field. */
  datatype Message = Message(nickname: string, avatar: Option<string>, content: string)

  /** The theme-dependent colours: text colour, message-bubble colour, page background. */
  datatype Palette = Palette(text: string, bubble: string, background: string)

  const DarkPalette := Palette("white", "#0a061a", "#221f33")
  const LightPalette := Palette("black", "#fdfcff", "#f2f0fa")

  /** Only the exact string "dark" selects the dark palette; anything else, `undefined` included, is light. */
  function SelectPalette(theme: Option<string>): (p: Palette)
    ensures p == DarkPalette <==> theme == Some("dark")
    ensures p == LightPalette <==> theme != Some("dark")
  {
    assert DarkPalette.text[0] != LightPalette.text[0];
    if theme == Some("dark") then DarkPalette else LightPalette
  }

  lemma ThemeIsCaseSensitive()
    ensures SelectPalette(Some("DARK")) == LightPalette
    ensures SelectPalette(Some("")) == LightPalette
    ensures SelectPalette(Some("light")) == LightPalette
    ensures SelectPalette(None) == LightPalette
  {
    assert "DARK"[0] != "dark"[0];
    assert "light"[0] != "dark"[0];
  }

  /** The `width` parameter's default, used only when no width is given. */
  const DefaultWidth := 1600

  /** The container's CSS width: half the requested width (the page is scaled 2x). */
  function CssWidth(width: Option<int>): (w: real)
    ensures width == None ==> w == 800.0
    ensures width != None ==> 2.0 * w == width.value as real
  {
    width.GetOr(DefaultWidth) as real / 2.0
  }

  /** The text put at the container's `width:` slot: `width / 2` as JavaScript prints it. */
  function WidthText(width: Option<int>): (s: string)
    ensures ParseNumber(s) == Some(CssWidth(width))
    ensures 'p' !in s
  {
    var s := HalfText(width.GetOr(DefaultWidth));
    HalfTextRoundTrip(width.GetOr(DefaultWidth));
    assert forall i :: 0 <= i < |s| ==> s[i] != 'p' by {
      forall i | 0 <= i < |s| ensures s[i] != 'p' {
        assert IsNumberChar(s[i]);
      }
    }
    s
  }

  lemma DefaultWidthText()
    ensures CssWidth(None) == 800.0
    ensures WidthText(None) == "800"
  {
    assert NatText(8) == "8";
    assert NatText(80) == "80";
    assert NatText(800) == "800";
  }

  /** JavaScript truthiness of the optional avatar: absent and "" both count as no avatar. */
  predicate HasAvatar(m: Message)
    ensures HasAvatar(m) <==> m.avatar != None && m.avatar != Some("")
  {
    m.avatar.Some? && m.avatar.value != ""
  }

  const AvatarStyleOpen := "style=\"background-image: url("
  const AvatarStyleClose := ");\""

  /** The attribute text of the avatar cell: a background-image style exactly when there is an avatar. */
  function AvatarAttribute(m: Message): (a: string)
    ensures a != "" <==> HasAvatar(m)
  {
    if HasAvatar(m) then AvatarStyleOpen + m.avatar.value + AvatarStyleClose else ""
  }

  /** Reader for an avatar attribute: the URL between `url(` and `);"`. */
  function AvatarUrl(attribute: string): Option<string> {
    var n := |attribute|;
    if n >= |AvatarStyleOpen| + |AvatarStyleClose| && AvatarStyleOpen <= attribute
       && attribute[n - |AvatarStyleClose|..] == AvatarStyleClose
    then Some(attribute[|AvatarStyleOpen|..n - |AvatarStyleClose|])
    else None
  }

  /** The avatar cell carries the avatar URL verbatim when there is one, and no style otherwise. */
  lemma AvatarAttributeRoundTrip(m: Message)
    ensures AvatarUrl(AvatarAttribute(m)) == if HasAvatar(m) then Some(m.avatar.value) else None
  {
    var a := AvatarAttribute(m);
    if HasAvatar(m) {
      var url := m.avatar.value;
      assert a[..|AvatarStyleOpen|] == AvatarStyleOpen;
      assert a[|a| - |AvatarStyleClose|..] == AvatarStyleClose;
      assert a[|AvatarStyleOpen|..|a| - |AvatarStyleClose|] == url;
    }
  }

  /** `String(nickname[0])`: the first character, or "undefined" for an empty nickname. */
  function FirstCharacterText(nickname: string): (s: string)
    ensures s != ""
    ensures nickname != "" ==> s == nickname[..1]
    ensures nickname == "" ==> s == "undefined"
  {
    if nickname == [] then "undefined" else [nickname[0]]
  }

  /** The text of the avatar cell: empty when there is an avatar, else the upper-cased initial. */
  function AvatarLabel(m: Message): (s: string)
    ensures s == "" <==> HasAvatar(m)
    ensures !HasAvatar(m) && m.nickname != "" ==> s == [UpperChar(m.nickname[0])]
    ensures !HasAvatar(m) && m.nickname == "" ==> s == "UNDEFINED"
  {
    if HasAvatar(m) then "" else ToUpper(FirstCharacterText(m.nickname))
  }

  const AvatarOpen := "<div class=\"avatar\" "

  /** The `.avatar` cell: it shows the avatar URL verbatim when there is one, and always its label. */
  function AvatarCell(m: Message): (c: string)
    ensures HasAvatar(m) ==> Contains(c, m.avatar.value)
    ensures Contains(c, AvatarLabel(m))
  {
    var attribute := AvatarAttribute(m);
    var rest := ">" + (AvatarLabel(m) + "</div>");
    ContainsWithin(">", AvatarLabel(m), "</div>");
    ContainsAfter(attribute, rest, AvatarLabel(m));
    ContainsAfter(AvatarOpen, attribute + rest, AvatarLabel(m));
    assert HasAvatar(m) ==> Contains(AvatarOpen + (attribute + rest), m.avatar.value) by {
      if HasAvatar(m) {
        var url := m.avatar.value;
        assert attribute == AvatarStyleOpen + (url + AvatarStyleClose);
        ContainsWithin(AvatarStyleOpen, url, AvatarStyleClose);
        ContainsBefore(attribute, rest, url);
        ContainsAfter(AvatarOpen, attribute + rest, url);
      }
    }
    AvatarOpen + (attribute + rest)
  }

  /**
   * Reader for an avatar cell: its attribute text and its label. After the opening
   * `<div class="avatar" ` comes `>` at once when the cell has no attribute.
   */
  function ReadAvatarCell(cell: string): Option<(string, string)> {
    var rest :- Expect(cell, AvatarOpen);
    if |rest| >= 7 && rest[0] == '>' && EndsWith(rest, "</div>") then Some(("", rest[1..|rest| - 6]))
    else if EndsWith(rest, "></div>") then Some((rest[..|rest| - 7], ""))
    else None
  }

  /**
   * The avatar cell holds exactly the avatar attribute and the label: a style and no
   * text when there is an avatar, no style and the upper-cased initial otherwise.
   */
  lemma AvatarCellRoundTrip(m: Message)
    ensures ReadAvatarCell(AvatarCell(m)) == Some((AvatarAttribute(m), AvatarLabel(m)))
  {
    var attribute := AvatarAttribute(m);
    var rest := attribute + (">" + (AvatarLabel(m) + "</div>"));
    ExpectPrefix(AvatarOpen, rest);
    assert Expect(AvatarCell(m), AvatarOpen) == Some(rest);
    if HasAvatar(m) {
      assert AvatarLabel(m) == "";
      assert rest == attribute + "></div>";
      assert attribute[0] == AvatarStyleOpen[0] == 's';
      assert rest[|rest| - 7..] == "></div>";
      assert rest[..|rest| - 7] == attribute;
    } else {
      assert rest == ">" + AvatarLabel(m) + "</div>";
      assert rest[|rest| - 6..] == "</div>";
      assert rest[1..|rest| - 6] == AvatarLabel(m);
    }
  }

  function NameDiv(nickname: string): string {
    "<div class=\"name\">" + nickname + "</div>"
  }

  function ContentDiv(content: string): string {
    "<div class=\"content\">" + content + "</div>"
  }

  const RowOpen := "\n    <div class=\"message\">\n      "
  const RowClose := "\n    </div>\n  "

  /** The `.message` row of one message: it opens the `.message` div and closes it again. */
  function Row(m: Message): (r: string)
    ensures RowOpen <= r
    ensures EndsWith(r, RowClose)
  {
    var tail := "\n      </div>" + RowClose;
    var afterName := "\n        " + (ContentDiv(m.content) + tail);
    var afterAvatar := "\n      <div>\n        " + (NameDiv(m.nickname) + afterName);
    EndsWithAfter("\n      </div>", RowClose, RowClose);
    EndsWithAfter(ContentDiv(m.content), tail, RowClose);
    EndsWithAfter("\n        ", ContentDiv(m.content) + tail, RowClose);
    EndsWithAfter(NameDiv(m.nickname), afterName, RowClose);
    EndsWithAfter("\n      <div>\n        ", NameDiv(m.nickname) + afterName, RowClose);
    EndsWithAfter(AvatarCell(m), afterAvatar, RowClose);
    EndsWithAfter(RowOpen, AvatarCell(m) + afterAvatar, RowClose);
    RowOpen + (AvatarCell(m) + afterAvatar)
  }

  /** A row holds its avatar cell, and the nickname and content verbatim, with no escaping. */
  lemma RowShowsMessage(m: Message)
    ensures Contains(Row(m), AvatarCell(m))
    ensures Contains(Row(m), NameDiv(m.nickname))
    ensures Contains(Row(m), ContentDiv(m.content))
  {
    var tail := "\n      </div>" + RowClose;
    var afterName := "\n        " + (ContentDiv(m.content) + tail);
    var text := "\n      <div>\n        " + (NameDiv(m.nickname) + afterName);
    ContainsWithin(RowOpen, AvatarCell(m), text);
    ContainsWithin("\n      <div>\n        ", NameDiv(m.nickname), afterName);
    ContainsWithin("\n        ", ContentDiv(m.content), tail);
    ContainsAfter(NameDiv(m.nickname), afterName, ContentDiv(m.content));
    ContainsAfter("\n      <div>\n        ", NameDiv(m.nickname) + afterName, ContentDiv(m.content));
    ContainsAfter(AvatarCell(m), text, NameDiv(m.nickname));
    ContainsAfter(AvatarCell(m), text, ContentDiv(m.content));
    ContainsAfter(RowOpen, AvatarCell(m) + text, NameDiv(m.nickname));
    ContainsAfter(RowOpen, AvatarCell(m) + text, ContentDiv(m.content));
  }

  /** `messages.map(...)`: the row of each message, in input order. */
  function RowTexts(messages: seq<Message>): (rows: seq<string>)
    ensures |rows| == |messages|
    ensures forall i :: 0 <= i < |messages| ==> rows[i] == Row(messages[i])
  {
    seq(|messages|, i requires 0 <= i < |messages| => Row(messages[i]))
  }

  /** The message section: `RowTexts(messages).join('')`. It starts with the first message's row and ends with the last one's. */
  function Rows(messages: seq<Message>): (s: string)
    ensures messages != [] ==> Row(messages[0]) <= s
    ensures messages != [] ==> EndsWith(s, Row(messages[|messages| - 1]))
  {
    var rows := RowTexts(messages);
    if rows == [] then "" else ConcatEnds(rows); Concat(rows)
  }

  /** Message `i` contributes exactly its own row, between the rows of the messages before and after it. */
  lemma RowsAt(messages: seq<Message>, i: nat)
    requires i < |messages|
    ensures Rows(messages) == Rows(messages[..i]) + Row(messages[i]) + Rows(messages[i + 1..])
  {
    var rows := RowTexts(messages);
    assert rows[..i] == RowTexts(messages[..i]);
    assert rows[i + 1..] == RowTexts(messages[i + 1..]);
    ConcatAt(rows, i);
  }

  /** The message section is empty exactly when there are no messages. */
  lemma RowsEmpty(messages: seq<Message>)
    ensures Rows(messages) == "" <==> messages == []
  {
    if messages != [] {
      var rows := RowTexts(messages);
      assert Concat(rows) == rows[0] + Concat(rows[1..]);
      assert |RowOpen| > 0;
    }
  }

  /**
   * A template literal with holes for the text colour, page background, width,
   * bubble colour and rows. The first four holes hold CSS declaration values, so
   * each is followed by ';' (the width after its unit "px"); the fields are the
   * fixed text between the holes.
   */
  datatype Template = Template(
    preamble: string, afterText: string, afterBackground: string, afterWidth: string,
    afterBubble: string, containerOpen: string, header: string, closing: string)

  /** The values in a filled template's holes. */
  datatype Slots = Slots(text: string, background: string, width: string, bubble: string, rows: string)

  /** The document head, up to and including the opening `<body>` text, followed by `rest`. */
  function Head(t: Template, s: Slots, rest: string): string {
    t.preamble + (s.text + ((";" + t.afterText) + (s.background + ((";" + t.afterBackground)
      + (s.width + (("px;" + t.afterWidth) + (s.bubble + ((";" + t.afterBubble) + rest))))))))
  }

  /** The container: its opening tag, the header bar, the rows and the closing tags. */
  function Body(t: Template, rows: string): string {
    t.containerOpen + (t.header + (rows + t.closing))
  }

  function Fill(t: Template, s: Slots): string {
    Head(t, s, Body(t, s.rows))
  }

  /** No hole value contains the character that ends its hole. */
  predicate Fits(s: Slots) {
    ';' !in s.text && ';' !in s.background && 'p' !in s.width && ';' !in s.bubble
  }

  /** `s` without the prefix `lit`, if `s` starts with it. */
  function Expect(s: string, lit: string): (r: Option<string>)
    ensures r.Some? <==> lit <= s
    ensures r.Some? ==> s == lit + r.value
  {
    if lit <= s then Some(s[|lit|..]) else None
  }

  lemma ExpectPrefix(lit: string, rest: string)
    ensures Expect(lit + rest, lit) == Some(rest)
  {
    assert (lit + rest)[|lit|..] == rest;
  }

  /** Reads one hole up to its end character `c`, then the fixed text `lit` after it; gives the value and the rest. */
  function ReadHole(doc: string, c: char, lit: string): Option<(string, string)> {
    var value := TakeUntil(doc, c);
    var rest :- Expect(doc[|value|..], lit);
    Some((value, rest))
  }

  /** A hole value that cannot contain its end character is read back exactly. */
  lemma ReadHoleFilled(value: string, c: char, lit: string, rest: string)
    requires c !in value && lit != [] && lit[0] == c
    ensures ReadHole(value + (lit + rest), c, lit) == Some((value, rest))
  {
    TakeUntilConcat(value, lit + rest, c);
    assert (value + (lit + rest))[|value|..] == lit + rest;
    ExpectPrefix(lit, rest);
  }

  /** Reader for the head of a filled template: the four CSS values and the text after the head. */
  function ReadHead(t: Template, doc: string): Option<(Slots, string)> {
    var r1 :- Expect(doc, t.preamble);
    var text :- ReadHole(r1, ';', ";" + t.afterText);
    var background :- ReadHole(text.1, ';', ";" + t.afterBackground);
    var width :- ReadHole(background.1, 'p', "px;" + t.afterWidth);
    var bubble :- ReadHole(width.1, ';', ";" + t.afterBubble);
    Some((Slots(text.0, background.0, width.0, bubble.0, ""), bubble.1))
  }

  /** Reader for the container: the rows between the header and the closing text. */
  function ReadBody(t: Template, doc: string): Option<string> {
    var r1 :- Expect(doc, t.containerOpen);
    var r2 :- Expect(r1, t.header);
    if EndsWith(r2, t.closing) then Some(r2[..|r2| - |t.closing|]) else None
  }

  /** Reader for a filled template. */
  function Read(t: Template, doc: string): Option<Slots> {
    var head :- ReadHead(t, doc);
    var rows :- ReadBody(t, head.1);
    Some(head.0.(rows := rows))
  }

  lemma ReadHeadFilled(t: Template, s: Slots, rest: string)
    requires Fits(s)
    ensures ReadHead(t, Head(t, s, rest)) == Some((s.(rows := ""), rest))
  {
    var t4 := (";" + t.afterBubble) + rest;
    var t3 := ("px;" + t.afterWidth) + (s.bubble + t4);
    var t2 := (";" + t.afterBackground) + (s.width + t3);
    var t1 := (";" + t.afterText) + (s.background + t2);
    ExpectPrefix(t.preamble, s.text + t1);
    ReadHoleFilled(s.text, ';', ";" + t.afterText, s.background + t2);
    ReadHoleFilled(s.background, ';', ";" + t.afterBackground, s.width + t3);
    ReadHoleFilled(s.width, 'p', "px;" + t.afterWidth, s.bubble + t4);
    ReadHoleFilled(s.bubble, ';', ";" + t.afterBubble, rest);
  }

  lemma ReadBodyFilled(t: Template, rows: string)
    ensures ReadBody(t, Body(t, rows)) == Some(rows)
  {
    var r2 := t.header + (rows + t.closing);
    ExpectPrefix(t.containerOpen, r2);
    ExpectPrefix(t.header, rows + t.closing);
    assert (rows + t.closing)[|rows + t.closing| - |t.closing|..] == t.closing;
    assert (rows + t.closing)[..|rows + t.closing| - |t.closing|] == rows;
  }

  /** Reading a filled template gives back exactly what was put into its holes. */
  lemma ReadFill(t: Template, s: Slots)
    requires Fits(s)
    ensures Read(t, Fill(t, s)) == Some(s)
  {
    ReadHeadFilled(t, s, Body(t, s.rows));
    assert s.(rows := "").(rows := s.rows) == s;
    ReadBodyFilled(t, s.rows);
  }

  /** Whatever is in the holes, the filled template starts with the preamble, holds the container and header, and ends with the closing text. */
  lemma FillKeepsChrome(t: Template, s: Slots)
    ensures t.preamble <= Fill(t, s)
    ensures Contains(Fill(t, s), t.containerOpen)
    ensures Contains(Fill(t, s), t.header)
    ensures EndsWith(Fill(t, s), t.closing)
  {
    var body := Body(t, s.rows);
    var afterPreamble := s.text + ((";" + t.afterText) + (s.background + ((";" + t.afterBackground)
      + (s.width + (("px;" + t.afterWidth) + (s.bubble + ((";" + t.afterBubble) + body)))))));
    var before := t.preamble + afterPreamble[..|afterPreamble| - |body|];
    assert afterPreamble[|afterPreamble| - |body|..] == body;
    assert Fill(t, s) == before + body;
    ContainsWithin([], t.containerOpen, t.header + (s.rows + t.closing));
    ContainsWithin(t.containerOpen, t.header, s.rows + t.closing);
    ContainsAfter(before, body, t.containerOpen);
    ContainsAfter(before, body, t.header);
    assert EndsWith(t.closing, t.closing);
    EndsWithAfter(s.rows, t.closing, t.closing);
    EndsWithAfter(t.header, s.rows + t.closing, t.closing);
    EndsWithAfter(t.containerOpen, t.header + (s.rows + t.closing), t.closing);
    EndsWithAfter(before, body, t.closing);
  }

  const Doctype := "<!DOCTYPE html>"

  /** A decorative window-control dot of a fixed colour. */
  function Dot(colour: string): string {
    "<div style=\"background: " + colour + ";\"></div>"
  }

  const DotSeparator := "\n        "

  const HeaderOpen := "\n    <div class=\"header\">\n      <div class=\"btns\">\n        "

  /** The title is U+804A U+5929 U+8BB0 U+5F55, "chat history". */
  const HeaderClose := "\n      </div>\n      <div class=\"title\">\U{804A}\U{5929}\U{8BB0}\U{5F55}</div>\n    </div>\n    "

  /** The header bar: the three dots and the title. */
  const Header := HeaderOpen + (Dot("#ff5f56") + (DotSeparator + (Dot("#ffbd2e")
    + (DotSeparator + (Dot("#27c93f") + HeaderClose)))))

  /** The screenshot target. */
  const ContainerOpen := "<div class=\"container\" id=\"container\">"

  const Closing := "\n  </div>\n</body>\n\n</html>"

  const Preamble := Doctype + ("\n" +
      "<html>\n" +
      "\n" +
      "<head>\n" +
      "  <meta charset=\"UTF-8\">\n" +
      "  <meta http-equiv=\"X-UA-Compatible\" content=\"IE=edge\">\n" +
      "  <meta name=\"viewport\" content=\"width=device-width, initial-scale=1.0\">\n" +
      "  <title>Document</title>\n" +
      "  <link rel=\"stylesheet\" href=\"https://fonts.googleapis.com/css?family=Noto+Sans+SC\">\n" +
      "  <style>\n" +
      "    * {\n" +
      "      padding: 0;\n" +
      "      margin: 0;\n" +
      "      box-sizing: border-box;\n" +
      "      font-family: 'Noto Sans SC';\n" +
      "      color: ")

  /** The template of `render`, split at its five substitutions. */
  const Chrome := Template(
    Preamble,
    "\n" +
      "    }\n" +
      "\n" +
      "    body {\n" +
      "      transform: scale(2) translate(100%, 100%);\n" +
      "    }\n" +
      "\n" +
      "    .container {\n" +
      "      background: ",
    "\n" +
      "      padding: 7px;\n" +
      "      width: ",
    "\n" +
      "      position: relative;\n" +
      "    }\n" +
      "\n" +
      "    .header {\n" +
      "      width: 100%;\n" +
      "      height: 32px;\n" +
      "      display: flex;\n" +
      "      align-items: center;\n" +
      "    }\n" +
      "\n" +
      "    .btns {\n" +
      "      position: absolute;\n" +
      "      display: grid;\n" +
      "      grid-auto-flow: column;\n" +
      "      grid-column-gap: 10px;\n" +
      "      left: 20px;\n" +
      "    }\n" +
      "\n" +
      "    .btns > div {\n" +
      "      width: 15px;\n" +
      "      height: 15px;\n" +
      "      border-radius: 50%;\n" +
      "    }\n" +
      "\n" +
      "    .title {\n" +
      "      width: 100%;\n" +
      "      height: 100%;\n" +
      "      text-align: center;\n" +
      "      line-height: 32px;\n" +
      "    }\n" +
      "\n" +
      "    .message {\n" +
      "      display: grid;\n" +
      "      grid-template-columns: 64px auto;\n" +
      "      margin: 12px;\n" +
      "    }\n" +
      "\n" +
      "    .avatar {\n" +
      "      border-radius: 50%;\n" +
      "      width: 48px;\n" +
      "      height: 48px;\n" +
      "      background-color: #cc0066;\n" +
      "      background-size: cover;\n" +
      "      background-repeat: no-repeat;\n" +
      "      text-align: center;\n" +
      "      line-height: 45px;\n" +
      "      font-size: 28px;\n" +
      "      color: white;\n" +
      "      margin: 8px;\n" +
      "    }\n" +
      "\n" +
      "    .name {\n" +
      "      margin: 10px;\n" +
      "      font-weight: bold;\n" +
      "      font-size: 14px;\n" +
      "    }\n" +
      "\n" +
      "    .content {\n" +
      "      float: left;\n" +
      "      margin-left: 10px;\n" +
      "      padding: 10px;\n" +
      "      background: ",
    "\n" +
      "      border-radius: 10px;\n" +
      "    }\n" +
      "  </style>\n" +
      "</head>\n" +
      "\n" +
      "<body>\n" +
      "  ",
    ContainerOpen,
    Header,
    Closing)

  /** No colour of either palette contains ';', so each ends exactly where its CSS declaration does. */
  lemma PaletteColoursPlain(p: Palette)
    requires p == DarkPalette || p == LightPalette
    ensures ';' !in p.text && ';' !in p.background && ';' !in p.bubble
  {
  }

  /** What `render` puts into the template's holes. */
  function RenderSlots(messages: seq<Message>, theme: Option<string>, width: Option<int>): (s: Slots)
    ensures Fits(s)
  {
    var p := SelectPalette(theme);
    PaletteColoursPlain(p);
    Slots(p.text, p.background, WidthText(width), p.bubble, Rows(messages))
  }

  /**
   * `render(messages, theme, width)`; `width == None` is an omitted width. The
   * document reads back as exactly the values `render` puts into its holes.
   */
  function Render(messages: seq<Message>, theme: Option<string>, width: Option<int>): (doc: string)
    ensures ReadDocument(doc) == Some(RenderSlots(messages, theme, width))
  {
    ReadFill(Chrome, RenderSlots(messages, theme, width));
    Fill(Chrome, RenderSlots(messages, theme, width))
  }

  /** Reader for a rendered document. */
  function ReadDocument(doc: string): Option<Slots> {
    Read(Chrome, doc)
  }

  /**
   * The document holds the palette's text colour at `color:`, its background at
   * `.container background:`, `width / 2` at `width:`, its bubble colour at
   * `.content background:`, and the message rows inside the container.
   */
  lemma ReadRender(messages: seq<Message>, theme: Option<string>, width: Option<int>)
    ensures ReadDocument(Render(messages, theme, width))
         == Some(Slots(SelectPalette(theme).text, SelectPalette(theme).background,
                       WidthText(width), SelectPalette(theme).bubble, Rows(messages)))
  {
    ReadFill(Chrome, RenderSlots(messages, theme, width));
  }

  lemma HeaderHasDots()
    ensures Contains(Header, Dot("#ff5f56"))
    ensures Contains(Header, Dot("#ffbd2e"))
    ensures Contains(Header, Dot("#27c93f"))
  {
    var third := Dot("#27c93f") + HeaderClose;
    var second := Dot("#ffbd2e") + (DotSeparator + third);
    var first := Dot("#ff5f56") + (DotSeparator + second);
    ContainsWithin(HeaderOpen, Dot("#ff5f56"), DotSeparator + second);
    ContainsWithin(DotSeparator, Dot("#ffbd2e"), DotSeparator + third);
    ContainsAfter(Dot("#ff5f56"), DotSeparator + second, Dot("#ffbd2e"));
    ContainsAfter(HeaderOpen, first, Dot("#ffbd2e"));
    ContainsWithin(DotSeparator, Dot("#27c93f"), HeaderClose);
    ContainsAfter(Dot("#ffbd2e"), DotSeparator + third, Dot("#27c93f"));
    ContainsAfter(DotSeparator, second, Dot("#27c93f"));
    ContainsAfter(Dot("#ff5f56"), DotSeparator + second, Dot("#27c93f"));
    ContainsAfter(HeaderOpen, first, Dot("#27c93f"));
  }

  lemma PreambleStartsWithDoctype()
    ensures Doctype <= Preamble
  {
  }

  /**
   * Every document, whatever the messages, theme and width, starts with the
   * doctype, holds the `#container` root and the three fixed-colour dots, and
   * ends with the closing tags.
   */
  lemma RenderKeepsChrome(messages: seq<Message>, theme: Option<string>, width: Option<int>)
    ensures Doctype <= Render(messages, theme, width)
    ensures Contains(Render(messages, theme, width), ContainerOpen)
    ensures Contains(Render(messages, theme, width), Dot("#ff5f56"))
    ensures Contains(Render(messages, theme, width), Dot("#ffbd2e"))
    ensures Contains(Render(messages, theme, width), Dot("#27c93f"))
    ensures EndsWith(Render(messages, theme, width), Closing)
  {
    var doc := Render(messages, theme, width);
    FillKeepsChrome(Chrome, RenderSlots(messages, theme, width));
    PreambleStartsWithDoctype();
    PrefixTransitive(Doctype, Preamble, doc);
    HeaderHasDots();
    ContainsTransitive(doc, Header, Dot("#ff5f56"));
    ContainsTransitive(doc, Header, Dot("#ffbd2e"));
    ContainsTransitive(doc, Header, Dot("#27c93f"));
  }

  /** The palette's colours go to the slots: dark exactly for the theme "dark". */
  lemma SlotColours(messages: seq<Message>, theme: Option<string>, width: Option<int>)
    ensures var s := RenderSlots(messages, theme, width);
      (s.text == "white" && s.background == "#221f33" && s.bubble == "#0a061a") <==> theme == Some("dark")
    ensures var s := RenderSlots(messages, theme, width);
      theme != Some("dark") ==> s.text == "black" && s.background == "#f2f0fa" && s.bubble == "#fdfcff"
  {
    assert "white"[0] != "black"[0];
  }

  /** The width slot holds the text of `width / 2`, "800" when no width is given. */
  lemma SlotWidth(messages: seq<Message>, theme: Option<string>, width: Option<int>)
    ensures ParseNumber(RenderSlots(messages, theme, width).width) == Some(width.GetOr(DefaultWidth) as real / 2.0)
    ensures width == None ==> RenderSlots(messages, theme, width).width == "800"
  {
    var text := WidthText(width);
    assert RenderSlots(messages, theme, width).width == text;
    assert ParseNumber(text) == Some(CssWidth(width));
    DefaultWidthText();
  }
}
