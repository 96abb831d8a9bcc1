/** Escaping of user text for Telegram's MarkdownV2 message format
    (the nested `escape_md` of `send_telegram_message`). */
module Markdown {
  import opened Text

  /** The characters MarkdownV2 reserves, in the order the escaping loop
      visits them. The backslash comes first. */
  const Reserved: string := "\\_*[]()~`>#+-=|{}.!"

  /** One character escaped against the set `p`: a backslash is put in front
      of it when it belongs to `p`. */
  function EscapeCharIn(c: char, p: string): (r: string)
    ensures c in p ==> r == ['\\', c]
    ensures c !in p ==> r == [c]
  {
    if c in p then ['\\', c] else [c]
  }

  /** Left-to-right per-character escaping against the set `p`. */
  function EscapeIn(s: string, p: string): (r: string)
  {
    if s == [] then [] else EscapeCharIn(s[0], p) + EscapeIn(s[1..], p)
  }

  /** The escaping the bot applies: one left-to-right pass over the text that
      puts a backslash before each reserved character. */
  function Escape(s: string): (r: string)
  {
    EscapeIn(s, Reserved)
  }

  /** Number of characters of `s` that MarkdownV2 reserves. */
  function ReservedCount(s: string): (n: nat)
    ensures n <= |s|
  {
    if s == [] then 0 else (if s[0] in Reserved then 1 else 0) + ReservedCount(s[1..])
  }

  /** The inverse of `Escape`: a backslash followed by a reserved character
      stands for that character. */
  function Unescape(t: string): (r: string)
  {
    if |t| >= 2 && t[0] == '\\' && t[1] in Reserved then [t[1]] + Unescape(t[2..])
    else if t == [] then []
    else [t[0]] + Unescape(t[1..])
  }

  /** Text safe to embed in a MarkdownV2 message: every reserved character in
      it is the escaped partner of a backslash. */
  predicate WellEscaped(t: string)
  {
    if t == [] then true
    else if t[0] == '\\' then |t| >= 2 && t[1] in Reserved && WellEscaped(t[2..])
    else t[0] !in Reserved && WellEscaped(t[1..])
  }

  /** `escape_md` as `main.py` writes it: for each reserved character in turn,
      `text = text.replace(ch, "\\" + ch)`. */
  method EscapeMarkdown(text: string) returns (r: string)
    ensures r == Escape(text)
  {
    r := text;
    EscapeInNothing(text);
    for i := 0 to |Reserved|
      invariant r == EscapeIn(text, Reserved[..i])
    {
      var ch := Reserved[i];
      ReservedOrder(i);
      ReplaceStep(text, Reserved[..i], ch);
      assert Reserved[..i + 1] == Reserved[..i] + [ch];
      r := ReplaceAll(r, ch, ['\\', ch]);
    }
    assert Reserved[..|Reserved|] == Reserved;
  }

  /** The reserved characters are distinct, and only the first is a backslash. */
  lemma ReservedOrder(i: nat)
    requires i < |Reserved|
    ensures Reserved[i] !in Reserved[..i]
    ensures Reserved[i] == '\\' <==> i == 0
  {
  }

  lemma {:induction false} EscapeInNothing(s: string)
    ensures EscapeIn(s, []) == s
  {
    if s != [] {
      EscapeInNothing(s[1..]);
    }
  }

  /** One `replace` pass of the loop extends the set of escaped characters by
      `ch`, provided `ch` is new and a backslash is replaced only before any
      backslash has been inserted. This is why the sequential loop equals a
      single per-character pass. */
  lemma {:induction false} ReplaceStep(s: string, p: string, ch: char)
    requires ch !in p
    requires ch == '\\' ==> p == []
    ensures ReplaceAll(EscapeIn(s, p), ch, ['\\', ch]) == EscapeIn(s, p + [ch])
  {
    if s != [] {
      var head := EscapeCharIn(s[0], p);
      ReplaceAllAppend(head, EscapeIn(s[1..], p), ch, ['\\', ch]);
      ReplaceStep(s[1..], p, ch);
      if s[0] in p {
        assert ReplaceAll(head, ch, ['\\', ch]) == head;
      } else {
        assert ReplaceAll(head, ch, ['\\', ch]) == EscapeCharIn(s[0], p + [ch]);
      }
    }
  }

  /** Escaping adds exactly one character per reserved character. */
  lemma {:induction false} EscapeLength(s: string)
    ensures |Escape(s)| == |s| + ReservedCount(s)
  {
    if s != [] {
      EscapeLength(s[1..]);
    }
  }

  /** Text without reserved characters is left as it is, and only such text. */
  lemma {:induction false} EscapeIdentity(s: string)
    ensures Escape(s) == s <==> ReservedCount(s) == 0
    ensures ReservedCount(s) == 0 <==> forall i :: 0 <= i < |s| ==> s[i] !in Reserved
  {
    EscapeLength(s);
    if s != [] {
      EscapeIdentity(s[1..]);
      assert forall i :: 1 <= i < |s| ==> s[i] == s[1..][i - 1];
    }
  }

  /** Nothing is lost: unescaping the escaped text gives back the original,
      every character unchanged and in order. */
  lemma {:induction false} UnescapeEscape(s: string)
    ensures Unescape(Escape(s)) == s
  {
    if s != [] {
      var rest := Escape(s[1..]);
      UnescapeEscape(s[1..]);
      if s[0] in Reserved {
        assert Escape(s) == ['\\', s[0]] + rest;
        assert (['\\', s[0]] + rest)[2..] == rest;
      } else {
        assert Escape(s) == [s[0]] + rest;
        assert ([s[0]] + rest)[1..] == rest;
      }
    }
  }

  /** The escaped text is safe to embed: every reserved character it holds
      is escaped. */
  lemma {:induction false} EscapeWellEscaped(s: string)
    ensures WellEscaped(Escape(s))
  {
    if s != [] {
      var rest := Escape(s[1..]);
      EscapeWellEscaped(s[1..]);
      if s[0] in Reserved {
        assert Escape(s) == ['\\', s[0]] + rest;
        assert (['\\', s[0]] + rest)[2..] == rest;
      } else {
        assert Escape(s) == [s[0]] + rest;
        assert ([s[0]] + rest)[1..] == rest;
      }
    }
  }

  /** Conversely every well-escaped text is the escaping of exactly one text,
      its unescaping: `Escape` is a bijection onto well-escaped text. */
  lemma {:induction false} EscapeUnescape(t: string)
    requires WellEscaped(t)
    ensures Escape(Unescape(t)) == t
  {
    if t != [] {
      if t[0] == '\\' {
        EscapeUnescape(t[2..]);
        assert Unescape(t) == [t[1]] + Unescape(t[2..]);
        assert ([t[1]] + Unescape(t[2..]))[1..] == Unescape(t[2..]);
        assert t == [t[0], t[1]] + t[2..];
      } else {
        EscapeUnescape(t[1..]);
        assert Unescape(t) == [t[0]] + Unescape(t[1..]);
        assert ([t[0]] + Unescape(t[1..]))[1..] == Unescape(t[1..]);
        assert t == [t[0]] + t[1..];
      }
    }
  }

  /** Why the backslash must be handled first: replacing it after another
      reserved character has been escaped doubles the inserted backslash. */
  lemma BackslashLastDoubles()
    ensures ReplaceAll(EscapeIn(".", "."), '\\', "\\\\") != Escape(".")
  {
    assert EscapeIn(".", ".") == "\\.";
    assert Escape(".") == "\\.";
  }
}
