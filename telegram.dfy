/** The messages the bot sends to its Telegram chat (`send_telegram_message`). */
module Telegram {
  import opened Wrappers
  import opened Markdown

  /** A message as posted to the Bot API: its text and whether it is sent
      with `parse_mode` MarkdownV2 (otherwise as plain text). */
  datatype Message = Message(text: string, markdownV2: bool)

  /** The fixed parts of an alert; the emoji is U+1F39F followed by U+FE0F. */
  const AlertHeading: string := "\U{1F39F}\U{FE0F} *Ticket found for:* "
  const LinkOpening: string := "\n[Click here to view tickets]("
  const LinkClosing: string := ")"

  /** The message for `price_text`, with a link to `url` when one is given.
      Python's `if url:` treats the empty string like no URL at all. */
  function BuildMessage(priceText: string, url: Option<string>): (m: Message)
    ensures m.markdownV2 <==> url.Some? && url.value != []
    ensures !m.markdownV2 ==> m.text == priceText
    ensures m.markdownV2 ==>
              m.text == AlertHeading + Escape(priceText) + LinkOpening + Escape(url.value) + LinkClosing
  {
    if url.Some? && url.value != [] then
      Message(AlertHeading + Escape(priceText) + LinkOpening + Escape(url.value) + LinkClosing, true)
    else
      Message(priceText, false)
  }

  /** In a MarkdownV2 alert the price and the link target occupy their own
      slices of the text, each well escaped and each unescaping to exactly
      the price and URL the message was built from. */
  lemma AlertCarriesPriceAndUrl(priceText: string, url: string)
    requires url != []
    ensures var m := BuildMessage(priceText, Some(url));
            var p0 := |AlertHeading|;
            var p1 := p0 + |Escape(priceText)|;
            var u0 := p1 + |LinkOpening|;
            var u1 := u0 + |Escape(url)|;
            m.markdownV2 && u1 < |m.text| &&
            WellEscaped(m.text[p0..p1]) && Unescape(m.text[p0..p1]) == priceText &&
            WellEscaped(m.text[u0..u1]) && Unescape(m.text[u0..u1]) == url
  {
    var m := BuildMessage(priceText, Some(url));
    var ep, eu := Escape(priceText), Escape(url);
    var p0 := |AlertHeading|;
    var p1 := p0 + |ep|;
    var u0 := p1 + |LinkOpening|;
    var u1 := u0 + |eu|;
    assert m.text == AlertHeading + ep + LinkOpening + eu + LinkClosing;
    assert m.text[p0..p1] == ep;
    assert m.text[u0..u1] == eu;
    EscapeWellEscaped(priceText);
    EscapeWellEscaped(url);
    UnescapeEscape(priceText);
    UnescapeEscape(url);
  }
}
