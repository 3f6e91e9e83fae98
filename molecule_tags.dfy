/**
 * The rewrite bot messages go through before they become HTML: js/chat.js first turns
 * every '\n' into '<br>'; both chat scripts then wrap every match of
 * `/(LiPF6|LiFSI|EC|DEC|DMC|EMC|VC|FEC|LiF|Li2CO3|Li2O|Al2O3|ZrO2|HF)/g` in a span.
 * A global replace scans left to right; at each position the alternatives are tried in
 * the order written, the first that matches is replaced, and the scan resumes after it.
 */
module MoleculeTags {
  import opened Wrappers
  import opened JsText

  const Tokens: seq<string> :=
    ["LiPF6", "LiFSI", "EC", "DEC", "DMC", "EMC", "VC", "FEC", "LiF", "Li2CO3", "Li2O", "Al2O3", "ZrO2", "HF"]

  /** `.replace(/\n/g, '<br>')` */
  function NewlinesToBr(s: string): (r: string)
    ensures '\n' !in r
    ensures '\n' !in s ==> r == s
  {
    if s == [] then []
    else (if s[0] == '\n' then "<br>" else [s[0]]) + NewlinesToBr(s[1..])
  }

  function CountChar(s: string, c: char): nat {
    if s == [] then 0 else (if s[0] == c then 1 else 0) + CountChar(s[1..], c)
  }

  /** Each newline grows the text by three characters; nothing else changes length. */
  lemma {:induction false} NewlinesToBrLength(s: string)
    ensures |NewlinesToBr(s)| == |s| + 3 * CountChar(s, '\n')
  {
    if s != [] {
      NewlinesToBrLength(s[1..]);
    }
  }

  /** The letters the alternatives start with. */
  predicate IsTokenInitial(c: char) {
    c == 'L' || c == 'E' || c == 'D' || c == 'V' || c == 'F' || c == 'A' || c == 'Z' || c == 'H'
  }

  /** A list of alternatives a global replace can scan with: none of them is empty. */
  predicate NonEmptyAll(toks: seq<string>) {
    forall k :: 0 <= k < |toks| ==> |toks[k]| > 0
  }

  /** Every alternative has at least two characters and starts with one of those letters. */
  lemma TokensShape()
    ensures |Tokens| == 14 && NonEmptyAll(Tokens)
    ensures forall k :: 0 <= k < |Tokens| ==> |Tokens[k]| >= 2 && IsTokenInitial(Tokens[k][0])
  {
  }

  /** The index of the first alternative from `k` on, in list order, that matches at the start of `s`. */
  function FirstStarting(toks: seq<string>, s: string, k: nat): (r: Option<nat>)
    requires k <= |toks|
    ensures r.Some? ==> k <= r.value < |toks| && StartsWith(s, toks[r.value]) &&
                        forall j :: k <= j < r.value ==> !StartsWith(s, toks[j])
    ensures r.None? ==> forall j :: k <= j < |toks| ==> !StartsWith(s, toks[j])
    decreases |toks| - k
  {
    if k == |toks| then None
    else if StartsWith(s, toks[k]) then Some(k)
    else FirstStarting(toks, s, k + 1)
  }

  /** The replacement `<span class="chemical-molecule" data-molecule="$1">$1</span>`. */
  function Span(t: string): (r: string)
    ensures |r| > |t|
  {
    "<span class=\"chemical-molecule\" data-molecule=\"" + t + "\">" + t + "</span>"
  }

  /** A global replace of the alternatives `toks` by their spans. */
  function TagWith(toks: seq<string>, s: string): string
    requires NonEmptyAll(toks)
    decreases |s|
  {
    if s == [] then []
    else match FirstStarting(toks, s, 0)
      case Some(k) => Span(toks[k]) + TagWith(toks, s[|toks[k]|..])
      case None => [s[0]] + TagWith(toks, s[1..])
  }

  /** The replace both chat scripts apply. */
  function Tag(s: string): string {
    TokensShape();
    TagWith(Tokens, s)
  }

  /** No alternative occurs anywhere in `s`. */
  predicate NoTokenOf(toks: seq<string>, s: string) {
    forall p, k :: 0 <= k < |toks| && 0 <= p <= |s| ==> !OccursAt(s, toks[k], p)
  }

  predicate NoToken(s: string) {
    NoTokenOf(Tokens, s)
  }

  lemma NoTokenTail(toks: seq<string>, s: string)
    requires s != [] && NoTokenOf(toks, s)
    ensures NoTokenOf(toks, s[1..])
  {
    forall p, k | 0 <= k < |toks| && 0 <= p <= |s| - 1
      ensures !OccursAt(s[1..], toks[k], p)
    {
      if OccursAt(s[1..], toks[k], p) {
        assert s[1..][p..p + |toks[k]|] == s[p + 1..p + 1 + |toks[k]|];
        assert OccursAt(s, toks[k], p + 1);
      }
    }
  }

  lemma TokenInTail(toks: seq<string>, s: string, p: int, k: int)
    requires s != [] && 0 <= k < |toks| && 1 <= p <= |s| && OccursAt(s, toks[k], p)
    ensures OccursAt(s[1..], toks[k], p - 1)
  {
    assert s[1..][p - 1..p - 1 + |toks[k]|] == s[p..p + |toks[k]|];
  }

  /**
   * The rewrite never shortens the text, and leaves it exactly as it was iff none of the
   * alternatives occurs in it.
   */
  lemma {:induction false} TagWithLength(toks: seq<string>, s: string)
    requires NonEmptyAll(toks)
    ensures |TagWith(toks, s)| >= |s|
    ensures |TagWith(toks, s)| == |s| <==> NoTokenOf(toks, s)
    ensures NoTokenOf(toks, s) ==> TagWith(toks, s) == s
    decreases |s|, 1
  {
    if s != [] {
      match FirstStarting(toks, s, 0)
      case Some(k) => TagWithLengthAtToken(toks, s, k);
      case None => TagWithLengthAtPlain(toks, s);
    }
  }

  /** A match at the start: the span is longer than the text it replaces. */
  lemma {:induction false} TagWithLengthAtToken(toks: seq<string>, s: string, k: nat)
    requires NonEmptyAll(toks) && s != [] && FirstStarting(toks, s, 0) == Some(k)
    ensures |TagWith(toks, s)| > |s| && !NoTokenOf(toks, s)
    decreases |s|, 0
  {
    TagWithLength(toks, s[|toks[k]|..]);
    assert OccursAt(s, toks[k], 0);
  }

  /** No match at the start: the first character is copied and the rest decides. */
  lemma {:induction false} TagWithLengthAtPlain(toks: seq<string>, s: string)
    requires NonEmptyAll(toks) && s != [] && FirstStarting(toks, s, 0).None?
    ensures |TagWith(toks, s)| >= |s|
    ensures |TagWith(toks, s)| == |s| <==> NoTokenOf(toks, s)
    ensures NoTokenOf(toks, s) ==> TagWith(toks, s) == s
    decreases |s|, 0
  {
    assert TagWith(toks, s) == [s[0]] + TagWith(toks, s[1..]);
    TagWithLength(toks, s[1..]);
    if NoTokenOf(toks, s) {
      NoTokenTail(toks, s);
      assert s == [s[0]] + s[1..];
    } else {
      var p, k :| 0 <= k < |toks| && 0 <= p <= |s| && OccursAt(s, toks[k], p);
      if p > 0 {
        TokenInTail(toks, s, p, k);
      }
    }
  }

  /** The same for the chemistry alternatives. */
  lemma TagLength(s: string)
    ensures |Tag(s)| >= |s|
    ensures |Tag(s)| == |s| <==> NoToken(s)
    ensures NoToken(s) ==> Tag(s) == s
  {
    TokensShape();
    TagWithLength(Tokens, s);
  }

  /** 'LiFSI' is tried before 'LiF', so the whole salt is tagged. */
  lemma LiFSIBeatsLiF()
    ensures Tag("LiFSI") == Span("LiFSI")
  {
    TokensShape();
    var s := "LiFSI";
    Differ(s, Tokens[0], 2);
    assert s[..5] == Tokens[1];
    assert FirstStarting(Tokens, s, 1) == Some(1);
    assert s[5..] == [];
  }

  /** There are no word boundaries: the 'LiF' of 'LiFePO4' is tagged. */
  lemma LiFInsideLiFePO4()
    ensures Tag("LiFePO4") == Span("LiF") + "ePO4"
  {
    TokensShape();
    var s := "LiFePO4";
    forall j | 0 <= j < 8 ensures !StartsWith(s, Tokens[j]) {
      LiFePO4Prefix(j);
    }
    assert StartsWith(s, Tokens[8]);
    assert FirstStarting(Tokens, s, 8) == Some(8);
    assert s[3..] == "ePO4";
    NoInitialNoToken("ePO4");
  }

  lemma LiFePO4Prefix(j: nat)
    requires j < 8
    ensures !StartsWith("LiFePO4", Tokens[j])
  {
    Differ("LiFePO4", Tokens[j], if j == 0 then 2 else if j == 1 then 3 else 0);
  }

  /** A text does not start with a word it differs from at some common position. */
  lemma Differ(s: string, t: string, i: nat)
    requires i < |s| && i < |t| && s[i] != t[i]
    ensures !StartsWith(s, t)
  {
  }

  /** A text without any of those letters is left alone. */
  lemma NoInitialNoToken(s: string)
    requires forall i :: 0 <= i < |s| ==> !IsTokenInitial(s[i])
    ensures NoToken(s) && Tag(s) == s
  {
    TokensShape();
    TagLength(s);
  }

  /** The stock reply 'test context' is shown as it is. */
  lemma StockReplyUntouched()
    ensures Tag("test context") == "test context"
    ensures Tag(NewlinesToBr("test context")) == "test context"
  {
    var s := "test context";
    assert '\n' !in s;
    NoInitialNoToken(s);
  }
}
