/** Pieces of a printed document. A piece is a run of tokens whose first tag is not met before it, so a
    search for that tag finds the piece, and a search for a text element inside it finds that text. Names
    that differ in some letter are apart: no attributes make one the other. */
module Pieces {
  import opened Basics
  import opened Text
  import opened EmbeddedFields

  // ---- readers ----

  function Cut(xml: string, m: Option<Span>): string
    requires m.Some? ==> m.value.from <= m.value.to <= |xml|
  {
    if m.Some? then xml[m.value.from..m.value.to] else ""
  }

  /** The text of the first element `m` after the first tag `outer`. */
  function TextAfter(s: string, outer: string, m: string): string {
    var at := Find(s, "<" + outer + ">", 0);
    if at < 0 then "" else TextOf(s, m, at)
  }

  // ---- pieces of token sequences ----

  /** `part` stands in `ts`, and its first tag is not met before. */
  ghost predicate Contains(ts: seq<Token>, part: seq<Token>) {
    part != [] && part[0].Tag? && exists a, c :: ts == a + part + c && Lacks(a, part[0].body)
  }

  lemma {:induction false} ContainsWithin(a: seq<Token>, b: seq<Token>, c: seq<Token>, part: seq<Token>)
    requires Contains(b, part) && Lacks(a, part[0].body)
    ensures Contains(a + b + c, part)
  {
    var d, e :| b == d + part + e && Lacks(d, part[0].body);
    LacksConcat(a, d, part[0].body);
    assert a + b + c == (a + d) + part + (e + c);
  }

  /** Where a text element stands, its text is read. */
  lemma {:induction false} EmbeddedText(ts: seq<Token>, m: string, text: string, next: string)
    requires WellFormed(ts) && Plain(m) && Contains(ts, [Tag(m), Chars(text), Tag(next)])
    ensures TextOf(Print(ts), m, 0) == text
  {
    var part := [Tag(m), Chars(text), Tag(next)];
    var a, c :| ts == a + part + c && Lacks(a, m);
    assert ts == a + (part + c) && a[0..] == a;
    assert ts[..0] == [] && Print([]) == "";
    ReadText(ts, a, 0, m, text, next, c);
  }

  /** And where it is the first of its kind in an embedded piece, it is read after the piece's tag. */
  lemma {:induction false} TextInPart(ts: seq<Token>, part: seq<Token>, m: string, text: string, next: string)
    requires WellFormed(ts) && Plain(m) && Contains(ts, part) && Plain(part[0].body)
    requires part[0].body != m && Contains(part, [Tag(m), Chars(text), Tag(next)])
    ensures TextAfter(Print(ts), part[0].body, m) == text
  {
    hide WellFormed, TextOf, Find;
    var outer := part[0].body;
    var a, c :| ts == a + part + c && Lacks(a, outer);
    var d, e :| part == d + [Tag(m), Chars(text), Tag(next)] + e && Lacks(d, m);
    assert d != [] && d[0] == Tag(outer);
    assert ts == a + d + ([Tag(m), Chars(text), Tag(next)] + (e + c));
    ReadInside(ts, a, outer, d, m, text, next, e + c);
  }

  /** An embedded piece is what stands between its first and its last tag. */
  lemma {:induction false} EmbeddedPiece(ts: seq<Token>, part: seq<Token>, close: string)
    requires WellFormed(ts) && Contains(ts, part) && |part| > 1 && part[|part| - 1] == Tag(close)
    requires Plain(part[0].body) && Plain(close) && Lacks(part[1..|part| - 1], close)
    ensures Cut(Print(ts), Match(Print(ts), "<" + part[0].body + ">", "<" + close + ">")) == Print(part)
  {
    hide WellFormed, Plain, Match, Print;
    var open := part[0].body;
    var a, c :| ts == a + part + c && Lacks(a, open);
    PieceOpens(ts, a, part, c);
    PieceCloses(ts, a, part, c, close);
    PrintConcat(a + part, c);
    PrintConcat(a, part);
    MatchIs(Print(ts), "<" + open + ">", "<" + close + ">", |Print(a)|,
            |Print(a)| + |Print(part)| - |"<" + close + ">"|);
    CutMiddle(Print(ts), Print(a), Print(part), Print(c));
  }

  lemma {:induction false} CutMiddle(s: string, a: string, b: string, c: string)
    requires s == a + b + c
    ensures Cut(s, Some(Span(|a|, |a| + |b|))) == b
  {
  }

  lemma {:induction false} PieceOpens(ts: seq<Token>, a: seq<Token>, part: seq<Token>, c: seq<Token>)
    requires ts == a + part + c && WellFormed(ts) && part != [] && part[0].Tag? && Plain(part[0].body)
    requires Lacks(a, part[0].body)
    ensures Find(Print(ts), "<" + part[0].body + ">", 0) == |Print(a)|
  {
    hide WellFormed, Plain, Find;
    assert ts[..0] == [] && Print([]) == "" && ts[..|a|] == a;
    forall j | 0 <= j < |a|
      ensures ts[j] != Tag(part[0].body)
    {
      assert ts[j] == a[j];
    }
    FindTag(ts, part[0].body, 0, |a|);
  }

  lemma {:induction false} PieceCloses(ts: seq<Token>, a: seq<Token>, part: seq<Token>, c: seq<Token>, close: string)
    requires ts == a + part + c && WellFormed(ts) && |part| > 1 && part[0].Tag? && Plain(close)
    requires part[|part| - 1] == Tag(close) && Lacks(part[1..|part| - 1], close)
    ensures Find(Print(ts), "<" + close + ">", |Print(a)| + |"<" + part[0].body + ">"|)
         == |Print(a)| + |Print(part)| - |"<" + close + ">"| >= 0
  {
    hide WellFormed, Plain, Find, Print;
    var n, last := |a|, |part| - 1;
    forall j | n + 1 <= j < n + last
      ensures ts[j] != Tag(close)
    {
      assert ts[j] == part[1..last][j - n - 1];
    }
    assert ts[n] == part[0] && ts[n + last] == part[last];
    FindTag(ts, close, n + 1, n + last);
    PrintNext(ts, n);
    PrintNext(ts, n + last);
    assert ts[..n] == a && ts[..n + last + 1] == a + part;
    PrintConcat(a, part);
  }

  // ---- names ----

  /** Neither string is a beginning of the other, so no attributes make them equal. */
  ghost predicate Apart(name: string, m: string) {
    exists i :: 0 <= i < |name| && i < |m| && name[i] != m[i]
  }

  lemma {:induction false} ApartAt(name: string, m: string, i: nat)
    requires i < |name| && i < |m| && name[i] != m[i]
    ensures Apart(name, m)
  {
  }

  lemma {:induction false} ApartDiffer(name: string, attributes: string, m: string)
    requires Apart(name, m)
    ensures name + attributes != m && name + attributes + "/" != m
  {
    var i :| 0 <= i < |name| && i < |m| && name[i] != m[i];
    assert (name + attributes)[i] == name[i];
    assert (name + attributes + "/")[i] == name[i];
  }
}
