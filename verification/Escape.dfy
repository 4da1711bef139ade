/** `esc` of `zatca-xml.ts`: five replacements, one after the other, over the whole text. */
module Escape {
  import opened Basics
  import opened Text

  /** value.replace(/c/g, to) */
  function ReplaceAll(s: string, c: char, to: string): string {
    if s == "" then "" else (if s[0] == c then to else [s[0]]) + ReplaceAll(s[1..], c, to)
  }

  function Esc(value: string): string {
    var amp := ReplaceAll(value, '&', "&amp;");
    var lt := ReplaceAll(amp, '<', "&lt;");
    var gt := ReplaceAll(lt, '>', "&gt;");
    var quot := ReplaceAll(gt, '"', "&quot;");
    ReplaceAll(quot, '\'', "&apos;")
  }

  /** The `esc` of `zatca-sign.ts` leaves apostrophes alone. */
  function EscQuoted(value: string): string {
    var amp := ReplaceAll(value, '&', "&amp;");
    var lt := ReplaceAll(amp, '<', "&lt;");
    var gt := ReplaceAll(lt, '>', "&gt;");
    ReplaceAll(gt, '"', "&quot;")
  }

  function Entity(c: char): string {
    match c
    case '&' => "&amp;"
    case '<' => "&lt;"
    case '>' => "&gt;"
    case '"' => "&quot;"
    case '\'' => "&apos;"
    case _ => [c]
  }

  /** One pass, each character on its own. */
  function Substitute(s: string): string {
    if s == "" then "" else Entity(s[0]) + Substitute(s[1..])
  }

  lemma {:induction false} ReplaceConcat(a: string, b: string, c: char, to: string)
    ensures ReplaceAll(a + b, c, to) == ReplaceAll(a, c, to) + ReplaceAll(b, c, to)
  {
    if a == "" {
      assert a + b == b;
    } else {
      ReplaceConcat(a[1..], b, c, to);
      assert (a + b)[1..] == a[1..] + b;
      Regroup(if a[0] == c then to else [a[0]], ReplaceAll(a[1..], c, to), ReplaceAll(b, c, to));
    }
  }

  lemma {:induction false} EscConcat(a: string, b: string)
    ensures Esc(a + b) == Esc(a) + Esc(b)
  {
    ReplaceConcat(a, b, '&', "&amp;");
    var a1, b1 := ReplaceAll(a, '&', "&amp;"), ReplaceAll(b, '&', "&amp;");
    ReplaceConcat(a1, b1, '<', "&lt;");
    var a2, b2 := ReplaceAll(a1, '<', "&lt;"), ReplaceAll(b1, '<', "&lt;");
    ReplaceConcat(a2, b2, '>', "&gt;");
    var a3, b3 := ReplaceAll(a2, '>', "&gt;"), ReplaceAll(b2, '>', "&gt;");
    ReplaceConcat(a3, b3, '"', "&quot;");
    var a4, b4 := ReplaceAll(a3, '"', "&quot;"), ReplaceAll(b3, '"', "&quot;");
    ReplaceConcat(a4, b4, '\'', "&apos;");
  }

  lemma {:induction false} ReplaceAbsent(s: string, c: char, to: string)
    requires forall i :: 0 <= i < |s| ==> s[i] != c
    ensures ReplaceAll(s, c, to) == s
  {
    if s != "" {
      ReplaceAbsent(s[1..], c, to);
    }
  }

  lemma {:induction false} ReplaceOne(x: char, c: char, to: string)
    ensures ReplaceAll([x], c, to) == if x == c then to else [x]
  {
    assert [x][1..] == "";
  }

  /** Later passes leave alone what an earlier one wrote. */
  lemma {:induction false} EntityStays(x: char, c: char, to: string)
    requires Special(c) && c != '&' && x != c
    ensures ReplaceAll(Entity(x), c, to) == Entity(x)
  {
    ReplaceAbsent(Entity(x), c, to);
  }

  lemma {:induction false} EscOne(c: char)
    ensures Esc([c]) == Entity(c)
  {
    ReplaceOne(c, '&', "&amp;");
    if c == '&' {
      EntityStays(c, '<', "&lt;");
      EntityStays(c, '>', "&gt;");
      EntityStays(c, '"', "&quot;");
      EntityStays(c, '\'', "&apos;");
    } else {
      EscOther(c);
    }
  }

  lemma {:induction false} EscOther(c: char)
    requires c != '&'
    ensures ReplaceAll(ReplaceAll(ReplaceAll(ReplaceAll([c], '<', "&lt;"), '>', "&gt;"), '"', "&quot;"), '\'', "&apos;")
         == Entity(c)
  {
    ReplaceOne(c, '<', "&lt;");
    if c == '<' {
      EntityStays(c, '>', "&gt;");
      EntityStays(c, '"', "&quot;");
      EntityStays(c, '\'', "&apos;");
    } else {
      ReplaceOne(c, '>', "&gt;");
      if c == '>' {
        EntityStays(c, '"', "&quot;");
        EntityStays(c, '\'', "&apos;");
      } else {
        ReplaceOne(c, '"', "&quot;");
        if c == '"' {
          EntityStays(c, '\'', "&apos;");
        } else {
          ReplaceOne(c, '\'', "&apos;");
        }
      }
    }
  }

  /** The five passes do what one pass over the characters would: no pass touches what an earlier
      one wrote. */
  lemma {:induction false} EscIsOnePass(s: string)
    ensures Esc(s) == Substitute(s)
  {
    if s != "" {
      EscIsOnePass(s[1..]);
      EscConcat([s[0]], s[1..]);
      EscOne(s[0]);
      assert s == [s[0]] + s[1..];
    }
  }

  // ---- reading it back ----

  /** The character a text's leading entity stands for. */
  function Leading(s: string): (c: Option<char>)
    ensures c.Some? ==> At(s, Entity(c.value), 0)
  {
    if At(s, "&amp;", 0) then Some('&')
    else if At(s, "&lt;", 0) then Some('<')
    else if At(s, "&gt;", 0) then Some('>')
    else if At(s, "&quot;", 0) then Some('"')
    else if At(s, "&apos;", 0) then Some('\'')
    else None
  }

  /** How an XML reader sees the text: the five predefined entities stand for their characters. */
  function Unescape(s: string): string
    decreases |s|
  {
    if s == "" then ""
    else
      match Leading(s)
      case Some(c) => [c] + Unescape(s[|Entity(c)|..])
      case None => [s[0]] + Unescape(s[1..])
  }

  predicate Special(c: char) {
    c == '&' || c == '<' || c == '>' || c == '"' || c == '\''
  }

  lemma {:induction false} LeadingOfEntity(c: char, s: string)
    requires At(s, Entity(c), 0)
    ensures Leading(s) == if Special(c) then Some(c) else None
  {
    var e := Entity(c);
    assert e[0] == s[0];
    if Special(c) {
      assert e[1] == s[1] && e[2] == s[2];
    }
    forall d: char | Special(d) && At(s, Entity(d), 0)
      ensures d == c
    {
      var f := Entity(d);
      assert f[0] == s[0] && f[1] == s[1] && f[2] == s[2];
    }
  }

  lemma {:induction false} UnescapeOne(c: char, rest: string)
    ensures Unescape(Entity(c) + rest) == [c] + Unescape(rest)
  {
    var s := Entity(c) + rest;
    LeadingOfEntity(c, s);
    assert s[|Entity(c)|..] == rest;
  }

  /** A reader gets back exactly what was escaped. */
  lemma {:induction false} UnescapeUndoesEsc(s: string)
    ensures Unescape(Esc(s)) == s
  {
    EscIsOnePass(s);
    if s != "" {
      UnescapeUndoesEsc(s[1..]);
      EscIsOnePass(s[1..]);
      UnescapeOne(s[0], Substitute(s[1..]));
    }
  }

  predicate Safe(s: string) {
    Plain(s) && '"' !in s && '\'' !in s
  }

  lemma {:induction false} SubstituteIsSafe(s: string)
    ensures Safe(Substitute(s))
  {
    if s != "" {
      SubstituteIsSafe(s[1..]);
      assert Safe(Entity(s[0]));
    }
  }

  /** No bracket and no quote survives. */
  lemma {:induction false} EscIsSafe(s: string)
    ensures Safe(Esc(s))
  {
    EscIsOnePass(s);
    SubstituteIsSafe(s);
  }

  lemma {:induction false} ReplaceRemoves(s: string, c: char, to: string, d: char)
    requires d !in to && (d == c || d !in s)
    ensures d !in ReplaceAll(s, c, to)
  {
    if s != "" {
      ReplaceRemoves(s[1..], c, to, d);
    }
  }

  /** Apostrophes apart, the four-pass form is as safe. */
  lemma {:induction false} EscQuotedIsSafe(s: string)
    ensures Plain(EscQuoted(s)) && '"' !in EscQuoted(s)
  {
    var amp := ReplaceAll(s, '&', "&amp;");
    var lt := ReplaceAll(amp, '<', "&lt;");
    var gt := ReplaceAll(lt, '>', "&gt;");
    ReplaceRemoves(amp, '<', "&lt;", '<');
    ReplaceRemoves(lt, '>', "&gt;", '<');
    ReplaceRemoves(lt, '>', "&gt;", '>');
    ReplaceRemoves(gt, '"', "&quot;", '<');
    ReplaceRemoves(gt, '"', "&quot;", '>');
    ReplaceRemoves(gt, '"', "&quot;", '"');
  }
}
