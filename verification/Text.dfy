/** Searching, cutting and printing of XML text: the string operations that `zatca-xml.ts` and
    `zatca-sign.ts` perform with regular expressions. */
module Text {
  import opened Basics

  /** `p` occurs in `s` at position k. */
  predicate At(s: string, p: string, k: nat) {
    k + |p| <= |s| && forall i :: 0 <= i < |p| ==> p[i] == s[k + i]
  }

  /** First occurrence of `p` at or after `from`, or -1. */
  function Find(s: string, p: string, from: nat): (k: int)
    ensures k == -1 || (from <= k && k + |p| <= |s|)
    decreases |s| - from
  {
    if from + |p| > |s| then -1
    else if At(s, p, from) then from
    else Find(s, p, from + 1)
  }

  /** Find returns a match, and there is none before it. */
  lemma {:induction false} FindIsFirst(s: string, p: string, from: nat)
    ensures Find(s, p, from) >= 0 ==> At(s, p, Find(s, p, from))
    ensures forall j: nat :: from <= j && At(s, p, j) ==> 0 <= Find(s, p, from) <= j
    decreases |s| - from
  {
    if from + |p| <= |s| && !At(s, p, from) {
      FindIsFirst(s, p, from + 1);
    }
  }

  lemma {:induction false} FoundAt(s: string, p: string, from: nat, k: nat)
    requires from <= k && At(s, p, k)
    requires forall j: nat :: from <= j < k ==> !At(s, p, j)
    ensures Find(s, p, from) == k
  {
    FindIsFirst(s, p, from);
  }

  datatype Span = Span(from: nat, to: nat)

  /** The first `open` up to the first `close` after it, markers included. */
  function Match(s: string, open: string, close: string): (m: Option<Span>)
    ensures m.Some? ==> m.value.from <= m.value.to <= |s|
  {
    var i := Find(s, open, 0);
    if i < 0 then None
    else
      var j := Find(s, close, i + |open|);
      if j < 0 then None else Some(Span(i, j + |close|))
  }

  function Without(s: string, m: Span): string
    requires m.from <= m.to <= |s|
  {
    s[..m.from] + s[m.to..]
  }

  /** A non-greedy, non-global replacement of `open...close` by nothing. */
  function StripFirst(s: string, open: string, close: string): string {
    match Match(s, open, close)
    case None => s
    case Some(m) => Without(s, m)
  }

  lemma {:induction false} MatchIs(s: string, open: string, close: string, i: nat, j: nat)
    requires Find(s, open, 0) == i && Find(s, close, i + |open|) == j
    ensures Match(s, open, close) == Some(Span(i, j + |close|))
  {
  }

  /** Some `open` is followed by a `close`. */
  ghost predicate HasPair(s: string, open: string, close: string) {
    exists i: nat, j: nat :: At(s, open, i) && i + |open| <= j && At(s, close, j)
  }

  lemma {:induction false} StripFirstKeepsExactlyWhen(s: string, open: string, close: string)
    requires open != "" && close != ""
    ensures StripFirst(s, open, close) == s <==> !HasPair(s, open, close)
    ensures |StripFirst(s, open, close)| <= |s|
    ensures |StripFirst(s, open, close)| == |s| ==> StripFirst(s, open, close) == s
  {
    FindIsFirst(s, open, 0);
    var i := Find(s, open, 0);
    if i >= 0 {
      FindIsFirst(s, close, i + |open|);
      var j := Find(s, close, i + |open|);
      if j >= 0 {
        assert At(s, open, i) && At(s, close, j);
      }
    }
  }

  // ---- tokens: markup is printed as a sequence of tags and runs of text ----

  datatype Token = Tag(body: string) | Chars(text: string)

  predicate Plain(s: string) {
    '<' !in s && '>' !in s
  }

  function PrintToken(t: Token): string {
    match t
    case Tag(body) => "<" + body + ">"
    case Chars(text) => text
  }

  function Print(ts: seq<Token>): string {
    if ts == [] then "" else PrintToken(ts[0]) + Print(ts[1..])
  }

  predicate PlainToken(t: Token) {
    match t
    case Tag(body) => Plain(body)
    case Chars(text) => Plain(text)
  }

  /** No bracket inside a tag or a text, so tags are exactly where the brackets are. */
  predicate WellFormed(ts: seq<Token>) {
    forall i :: 0 <= i < |ts| ==> PlainToken(ts[i])
  }

  lemma {:induction false} PrintConcat(a: seq<Token>, b: seq<Token>)
    ensures Print(a + b) == Print(a) + Print(b)
  {
    if a == [] {
      assert a + b == b;
    } else {
      PrintConcat(a[1..], b);
      assert (a + b)[1..] == a[1..] + b;
      Regroup(PrintToken(a[0]), Print(a[1..]), Print(b));
    }
  }

  lemma {:induction false} SameTag(body: string, m: string, rest: string)
    requires Plain(body) && Plain(m) && At("<" + body + ">" + rest, "<" + m + ">", 0)
    ensures body == m
  {
    var s, p := "<" + body + ">" + rest, "<" + m + ">";
    assert forall i :: 0 <= i < |m| ==> p[i + 1] == m[i];
    assert forall i :: 0 <= i < |body| ==> s[i + 1] == body[i];
    assert p[|m| + 1] == '>' && s[|body| + 1] == '>';
    assert forall i :: 0 <= i < |p| ==> p[i] == s[i];
    assert |m| <= |body|;
    forall i | 0 <= i < |m|
      ensures m[i] == body[i]
    {
      assert p[i + 1] == s[i + 1];
    }
  }

  /** A bracket opens at the first token or in what follows it. */
  lemma {:induction false} OpensFirstOrLater(t: Token, rest: string, p: string, k: nat)
    requires PlainToken(t) && p != "" && p[0] == '<' && At(PrintToken(t) + rest, p, k)
    ensures (k == 0 && t.Tag?) || (k >= |PrintToken(t)| && At(rest, p, k - |PrintToken(t)|))
  {
    var first := PrintToken(t);
    var s := first + rest;
    assert s[k..k + |p|][0] == s[k];
    match t {
      case Tag(body) => assert forall i :: 0 < i <= |body| ==> first[i] == body[i - 1];
      case Chars(_) =>
    }
    if k >= |first| {
      assert rest[k - |first|..k - |first| + |p|] == s[k..k + |p|];
    } else {
      assert first[k] == '<';
    }
  }

  /** A tag can only be found where a tag was printed. */
  lemma {:induction false} TagOccurs(ts: seq<Token>, m: string, k: nat) returns (i: nat)
    requires WellFormed(ts) && Plain(m) && At(Print(ts), "<" + m + ">", k)
    ensures i < |ts| && ts[i] == Tag(m) && k == |Print(ts[..i])|
  {
    var p := "<" + m + ">";
    OpensFirstOrLater(ts[0], Print(ts[1..]), p, k);
    if k == 0 && ts[0].Tag? {
      SameTag(ts[0].body, m, Print(ts[1..]));
      assert ts[..0] == [];
      return 0;
    } else {
      var j := TagOccurs(ts[1..], m, k - |PrintToken(ts[0])|);
      assert ts[..j + 1][1..] == ts[1..][..j];
      return j + 1;
    }
  }

  lemma {:induction false} PrintSplit(ts: seq<Token>, i: nat)
    requires i < |ts|
    ensures Print(ts) == Print(ts[..i]) + PrintToken(ts[i]) + Print(ts[i + 1..])
    ensures At(Print(ts), PrintToken(ts[i]), |Print(ts[..i])|)
  {
    PrintConcat(ts[..i], ts[i..]);
    assert ts == ts[..i] + ts[i..];
    assert ts[i..][1..] == ts[i + 1..];
  }

  lemma {:induction false} PrintGrows(ts: seq<Token>, i: nat, j: nat)
    requires i <= j <= |ts|
    ensures |Print(ts[..i])| <= |Print(ts[..j])|
    ensures i < j && ts[i].Tag? ==> |Print(ts[..i])| < |Print(ts[..j])|
  {
    PrintConcat(ts[..i], ts[i..j]);
    assert ts[..j] == ts[..i] + ts[i..j];
    if i < j {
      assert ts[i..j][0] == ts[i];
    }
  }

  /** Searching from where a token starts finds the first tag of its kind from there on. */
  lemma {:induction false} FindTag(ts: seq<Token>, m: string, from: nat, i: nat)
    requires WellFormed(ts) && Plain(m) && from <= i < |ts| && ts[i] == Tag(m)
    requires forall j :: from <= j < i ==> ts[j] != Tag(m)
    ensures Find(Print(ts), "<" + m + ">", |Print(ts[..from])|) == |Print(ts[..i])|
  {
    var start, k := |Print(ts[..from])|, |Print(ts[..i])|;
    PrintSplit(ts, i);
    PrintGrows(ts, from, i);
    forall j: nat | start <= j < k
      ensures !At(Print(ts), "<" + m + ">", j)
    {
      if At(Print(ts), "<" + m + ">", j) {
        var at := TagOccurs(ts, m, j);
        if at < from {
          PrintGrows(ts, at, from);
        } else {
          PrintGrows(ts, i, at);
        }
      }
    }
    FoundAt(Print(ts), "<" + m + ">", start, k);
  }

  /** The text of the first element `m` at or after `from`: what stands between its tag and the
      next bracket. */
  function TextOf(s: string, m: string, from: nat): string {
    var i := Find(s, "<" + m + ">", from);
    if i < 0 then ""
    else
      var j := Find(s, "<", i + |m| + 2);
      if j < 0 then "" else Between(s, i + |m| + 2, j)
  }

  function Between(s: string, i: nat, j: nat): string
    requires i <= j <= |s|
  {
    s[i..j]
  }

  lemma {:induction false} FirstBracket(front: string, text: string, rest: string)
    requires Plain(text) && rest != "" && rest[0] == '<'
    ensures Find(front + (text + rest), "<", |front|) == |front| + |text|
    ensures |front| + |text| <= |front + (text + rest)|
    ensures Between(front + (text + rest), |front|, |front| + |text|) == text
  {
    var s := front + (text + rest);
    assert s[|front| + |text|] == rest[0];
    assert forall j :: |front| <= j < |front| + |text| ==> s[j] == text[j - |front|];
    assert forall j: nat :: |front| <= j < |front| + |text| ==> !At(s, "<", j) by {
      assert "<"[0] == '<';
    }
    FoundAt(s, "<", |front|, |front| + |text|);
  }

  lemma {:induction false} TextOfTag(ts: seq<Token>, m: string, from: nat, i: nat)
    requires WellFormed(ts) && Plain(m) && from <= i && i + 2 < |ts| && ts[i] == Tag(m)
    requires forall j :: from <= j < i ==> ts[j] != Tag(m)
    requires ts[i + 1].Chars? && ts[i + 2].Tag?
    ensures TextOf(Print(ts), m, |Print(ts[..from])|) == ts[i + 1].text
  {
    FindTag(ts, m, from, i);
    var front, text, rest := Print(ts[..i + 1]), ts[i + 1].text, Print(ts[i + 2..]);
    PrintSplit(ts, i + 1);
    PrintNext(ts, i);
    FirstBracket(front, text, rest);
    TextOfIs(Print(ts), m, |Print(ts[..from])|, |Print(ts[..i])|, front, text, rest);
  }

  lemma {:induction false} PrintNext(ts: seq<Token>, i: nat)
    requires i < |ts|
    ensures Print(ts[..i + 1]) == Print(ts[..i]) + PrintToken(ts[i])
  {
    PrintConcat(ts[..i], [ts[i]]);
    assert ts[..i + 1] == ts[..i] + [ts[i]];
    assert [ts[i]][1..] == [];
    assert Print([ts[i]]) == PrintToken(ts[i]) + Print([]);
  }

  lemma {:induction false} TextOfIs(s: string, m: string, from: nat, i: nat, front: string, text: string, rest: string)
    requires s == front + text + rest && |front| == i + |m| + 2
    requires Find(s, "<" + m + ">", from) == i
    requires var t := front + (text + rest);
             && |front| + |text| <= |t| && Find(t, "<", |front|) == |front| + |text|
             && Between(t, |front|, |front| + |text|) == text
    ensures TextOf(s, m, from) == text
  {
    assert s == front + (text + rest);
  }

  /** A tag that was not printed is not found. */
  lemma {:induction false} NoTagNoMatch(ts: seq<Token>, m: string, k: nat)
    requires WellFormed(ts) && Plain(m) && Tag(m) !in ts
    ensures !At(Print(ts), "<" + m + ">", k)
  {
    if At(Print(ts), "<" + m + ">", k) {
      var i := TagOccurs(ts, m, k);
    }
  }
}
