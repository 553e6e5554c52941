/**
 * The response sanitiser: counts Hangul and CJK ideographs, strips CJK ideographs
 * from a model answer while protecting fenced and inline code, normalises white
 * space, cleans paragraph by paragraph and scores the result.
 */
module ResponseCleaner {
  import opened Wrappers
  import opened Text

  // ---------------------------------------------------------------------------
  // Character classes and counts (analyzeLanguageContent)
  // ---------------------------------------------------------------------------

  /** A code unit in CHINESE_REGEX: U+4E00-U+9FFF, U+3400-U+4DBF, U+F900-U+FAFF. */
  predicate IsChinese(c: char) {
    ('\U{4E00}' <= c <= '\U{9FFF}') || ('\U{3400}' <= c <= '\U{4DBF}') || ('\U{F900}' <= c <= '\U{FAFF}')
  }

  /** A code unit in KOREAN_REGEX: U+AC00-U+D7AF, U+1100-U+11FF, U+3130-U+318F. */
  predicate IsKorean(c: char) {
    ('\U{AC00}' <= c <= '\U{D7AF}') || ('\U{1100}' <= c <= '\U{11FF}') || ('\U{3130}' <= c <= '\U{318F}')
  }

  /** The number of code units of `s` that `inClass` accepts (`(s.match(re) || []).length`). */
  function Count(s: string, inClass: char -> bool): nat
  {
    if s == [] then 0 else (if inClass(s[0]) then 1 else 0) + Count(s[1..], inClass)
  }

  function CountChinese(s: string): nat { Count(s, IsChinese) }

  function CountKorean(s: string): nat { Count(s, IsKorean) }

  lemma {:induction false} CountAppend(a: string, b: string, inClass: char -> bool)
    ensures Count(a + b, inClass) == Count(a, inClass) + Count(b, inClass)
  {
    if a == [] {
      assert a + b == b;
    } else {
      assert (a + b)[1..] == a[1..] + b;
      CountAppend(a[1..], b, inClass);
    }
  }

  lemma {:induction false} CountZero(s: string, inClass: char -> bool)
    ensures Count(s, inClass) == 0 <==> forall i :: 0 <= i < |s| ==> !inClass(s[i])
  {
    if s != [] {
      CountZero(s[1..], inClass);
      assert forall i :: 1 <= i < |s| ==> s[i] == s[1..][i - 1];
    }
  }

  /** Hangul and CJK code units together never outnumber the code units of the text. */
  lemma {:induction false} ScriptCountsBounded(s: string)
    ensures CountKorean(s) + CountChinese(s) <= |s|
  {
    if s != [] {
      ScriptCountsBounded(s[1..]);
    }
  }

  datatype LanguageAnalysis = LanguageAnalysis(koreanCount: nat, chineseCount: nat, totalCharCount: nat)

  /** analyzeLanguageContent: the two script counts and the length, over the raw text. */
  function AnalyzeLanguageContent(text: string): (a: LanguageAnalysis)
    ensures a.totalCharCount == |text|
    ensures a.koreanCount + a.chineseCount <= a.totalCharCount
    ensures a.chineseCount == 0 <==> forall i :: 0 <= i < |text| ==> !IsChinese(text[i])
    ensures a.koreanCount == 0 <==> forall i :: 0 <= i < |text| ==> !IsKorean(text[i])
  {
    ScriptCountsBounded(text);
    CountZero(text, IsChinese);
    CountZero(text, IsKorean);
    LanguageAnalysis(CountKorean(text), CountChinese(text), |text|)
  }

  // ---------------------------------------------------------------------------
  // The two code scanners (CODE_BLOCK_REGEX and INLINE_CODE_REGEX)
  // ---------------------------------------------------------------------------

  const Fence: string := "```"

  /**
   * The first match of /```[\s\S]*?```/ in `s`, as the offsets (start, end) of the
   * matched text: the first fence, up to the first fence that starts after it.
   */
  function FenceAt(s: string): (r: Option<(nat, nat)>)
    ensures r.Some? ==> r.value.0 + 6 <= r.value.1 <= |s|
  {
    match IndexOf(s, Fence, 0)
    case None => None
    case Some(i) =>
      match IndexOf(s, Fence, i + 3)
      case None => None
      case Some(j) => Some((i, j + 3))
  }

  /** FenceAt finds the lazy match: the first fence, closed by the next fence after it; none when no fence follows a fence. */
  lemma FenceAtFirstMatch(s: string)
    ensures var r := FenceAt(s);
            && (r.Some? ==> OccursAt(s, Fence, r.value.0) && OccursAt(s, Fence, r.value.1 - 3))
            && (r.Some? ==> forall j :: 0 <= j < r.value.0 ==> !OccursAt(s, Fence, j))
            && (r.Some? ==> forall j :: r.value.0 + 3 <= j < r.value.1 - 3 ==> !OccursAt(s, Fence, j))
            && (r.None? ==> forall i, j :: OccursAt(s, Fence, i) && i + 3 <= j ==> !OccursAt(s, Fence, j))
  {
    var first := IndexOf(s, Fence, 0);
    if first.Some? {
      var next := IndexOf(s, Fence, first.value + 3);
    }
  }

  /** A piece of a text: a character left open to cleaning, or a protected code span. */
  datatype Piece = Char(c: char) | Code(text: string)

  function PieceText(p: Piece): string {
    match p
    case Char(c) => [c]
    case Code(t) => t
  }

  /** The text a sequence of pieces stands for. */
  function Flatten(ps: seq<Piece>): string {
    if ps == [] then "" else PieceText(ps[0]) + Flatten(ps[1..])
  }

  /** Every code unit of `s` as an open piece. */
  function Chars(s: string): (ps: seq<Piece>)
    ensures |ps| == |s| && forall i :: 0 <= i < |s| ==> ps[i] == Char(s[i])
  {
    seq(|s|, i requires 0 <= i < |s| => Char(s[i]))
  }

  lemma {:induction false} FlattenAppend(a: seq<Piece>, b: seq<Piece>)
    ensures Flatten(a + b) == Flatten(a) + Flatten(b)
  {
    if a == [] {
      assert a + b == b;
    } else {
      assert (a + b)[1..] == a[1..] + b;
      FlattenAppend(a[1..], b);
    }
  }

  lemma {:induction false} FlattenChars(s: string)
    ensures Flatten(Chars(s)) == s
  {
    if s != [] {
      assert Chars(s)[1..] == Chars(s[1..]);
      FlattenChars(s[1..]);
    }
  }

  /** Step 1 of removeChinese: the input cut at every fenced code block the regex matches. */
  function FencePieces(s: string): seq<Piece>
    decreases |s|
  {
    match FenceAt(s)
    case None => Chars(s)
    case Some((i, e)) => Chars(s[..i]) + [Code(s[i..e])] + FencePieces(s[e..])
  }

  /** Cutting out the fenced blocks loses and adds nothing. */
  lemma {:induction false} FlattenFencePieces(s: string)
    ensures Flatten(FencePieces(s)) == s
    decreases |s|
  {
    var r := FenceAt(s);
    if r.None? {
      FlattenChars(s);
    } else {
      var i, e := r.value.0, r.value.1;
      FlattenFencePieces(s[e..]);
      FlattenFenceStep(s, i, e, FencePieces(s[e..]));
    }
  }

  /** A fenced block cut out of `s` between open text and pieces that stand for the rest flattens back to `s`. */
  lemma FlattenFenceStep(s: string, i: nat, e: nat, rest: seq<Piece>)
    requires i <= e <= |s| && Flatten(rest) == s[e..]
    ensures Flatten(Chars(s[..i]) + [Code(s[i..e])] + rest) == s
  {
    var open, code := s[..i], s[i..e];
    assert Flatten(Chars(open) + [Code(code)] + rest) == open + code + s[e..] by {
      FlattenAroundCode(open, code, rest);
    }
    ThreeParts(s, i, e);
  }

  lemma ThreeParts(s: string, i: nat, e: nat)
    requires i <= e <= |s|
    ensures s[..i] + s[i..e] + s[e..] == s
  {
    assert s[..e] == s[..i] + s[i..e];
    assert s == s[..e] + s[e..];
  }

  /** Open text, a code span and more pieces flatten to the text, the span and the rest in order. */
  lemma FlattenAroundCode(open: string, code: string, rest: seq<Piece>)
    ensures Flatten(Chars(open) + [Code(code)] + rest) == open + code + Flatten(rest)
  {
    assert Chars(open) + [Code(code)] + rest == Chars(open) + ([Code(code)] + rest);
    FlattenAppend(Chars(open), [Code(code)] + rest);
    FlattenChars(open);
    FlattenOne(Code(code), rest);
  }

  predicate IsTick(p: Piece) { p == Char('`') }

  /** The first backtick piece at or after `from`. */
  function NextTick(ps: seq<Piece>, from: nat): (r: Option<nat>)
    ensures r.Some? ==> from <= r.value < |ps| && IsTick(ps[r.value])
    ensures r.Some? ==> forall j :: from <= j < r.value ==> !IsTick(ps[j])
    ensures r.None? ==> forall j :: from <= j < |ps| ==> !IsTick(ps[j])
    decreases |ps| - from
  {
    if from >= |ps| then None
    else if IsTick(ps[from]) then Some(from)
    else NextTick(ps, from + 1)
  }

  /**
   * Step 2 of removeChinese: every match of /`[^`]+`/, scanning from the left, becomes
   * one protected piece. A protected piece already there counts as text without a
   * backtick, as the placeholder that stands for it in the source does.
   */
  function InlinePieces(ps: seq<Piece>): seq<Piece>
    decreases |ps|
  {
    if ps == [] then []
    else if IsTick(ps[0]) && NextTick(ps, 1).Some? && NextTick(ps, 1).value > 1 then
      var k := NextTick(ps, 1).value;
      [Code(Flatten(ps[..k + 1]))] + InlinePieces(ps[k + 1..])
    else [ps[0]] + InlinePieces(ps[1..])
  }

  lemma {:induction false} FlattenInlinePieces(ps: seq<Piece>)
    ensures Flatten(InlinePieces(ps)) == Flatten(ps)
    decreases |ps|
  {
    if ps == [] {
    } else if IsTick(ps[0]) && NextTick(ps, 1).Some? && NextTick(ps, 1).value > 1 {
      var k := NextTick(ps, 1).value;
      FlattenInlinePieces(ps[k + 1..]);
      FlattenCodeThen(ps, k + 1, InlinePieces(ps[k + 1..]));
    } else {
      FlattenInlinePieces(ps[1..]);
      FlattenAppend([ps[0]], InlinePieces(ps[1..]));
    }
  }

  /** The first `n` pieces taken together as one code span, before pieces that stand for the rest. */
  lemma FlattenCodeThen(ps: seq<Piece>, n: nat, rest: seq<Piece>)
    requires n <= |ps| && Flatten(rest) == Flatten(ps[n..])
    ensures Flatten([Code(Flatten(ps[..n]))] + rest) == Flatten(ps)
  {
    var x := Flatten(ps[..n]);
    FlattenOne(Code(x), rest);
    FlattenSplit(ps, n);
  }

  /** One piece in front adds its text in front. */
  lemma FlattenOne(p: Piece, rest: seq<Piece>)
    ensures Flatten([p] + rest) == PieceText(p) + Flatten(rest)
  {
    assert ([p] + rest)[1..] == rest;
  }

  lemma FlattenSplit(ps: seq<Piece>, n: nat)
    requires n <= |ps|
    ensures Flatten(ps) == Flatten(ps[..n]) + Flatten(ps[n..])
  {
    assert ps == ps[..n] + ps[n..];
    FlattenAppend(ps[..n], ps[n..]);
  }

  /** The fenced blocks and inline code spans of `text`, cut out from the rest. */
  function ProtectedPieces(text: string): seq<Piece> {
    InlinePieces(FencePieces(text))
  }

  /** Step 3: drop every open CJK ideograph; protected pieces stay as they are. */
  function StripPieces(ps: seq<Piece>): seq<Piece>
  {
    if ps == [] then []
    else (if ps[0].Char? && IsChinese(ps[0].c) then [] else [ps[0]]) + StripPieces(ps[1..])
  }

  /** The protected texts of a sequence of pieces, in order. */
  function Codes(ps: seq<Piece>): seq<string>
  {
    if ps == [] then [] else (if ps[0].Code? then [ps[0].text] else []) + Codes(ps[1..])
  }

  /**
   * removeChinese as its authors intended it: the input with every CJK ideograph
   * dropped that is not inside a fenced block or an inline code span.
   */
  function RemoveChinese(text: string): string {
    Flatten(StripPieces(ProtectedPieces(text)))
  }

  lemma {:induction false} StripKeepsCodes(ps: seq<Piece>)
    ensures Codes(StripPieces(ps)) == Codes(ps)
  {
    if ps != [] {
      StripKeepsCodes(ps[1..]);
      CodesAppend(if ps[0].Char? && IsChinese(ps[0].c) then [] else [ps[0]], StripPieces(ps[1..]));
    }
  }

  lemma {:induction false} CodesAppend(a: seq<Piece>, b: seq<Piece>)
    ensures Codes(a + b) == Codes(a) + Codes(b)
  {
    if a == [] {
      assert a + b == b;
    } else {
      assert (a + b)[1..] == a[1..] + b;
      CodesAppend(a[1..], b);
    }
  }

  lemma {:induction false} StripLeavesNoOpenChinese(ps: seq<Piece>, k: nat)
    requires k < |StripPieces(ps)|
    ensures StripPieces(ps)[k].Char? ==> !IsChinese(StripPieces(ps)[k].c)
  {
    if ps != [] {
      var head := if ps[0].Char? && IsChinese(ps[0].c) then [] else [ps[0]];
      if k >= |head| {
        StripLeavesNoOpenChinese(ps[1..], k - |head|);
      }
    }
  }

  lemma {:induction false} StripIdentity(ps: seq<Piece>)
    requires CountChinese(Flatten(ps)) == 0
    ensures StripPieces(ps) == ps
  {
    if ps != [] {
      CountAppend(PieceText(ps[0]), Flatten(ps[1..]), IsChinese);
      StripIdentity(ps[1..]);
    }
  }

  lemma {:induction false} StripCount(ps: seq<Piece>)
    ensures CountChinese(Flatten(StripPieces(ps))) <= CountChinese(Flatten(ps))
  {
    if ps != [] {
      var head := if ps[0].Char? && IsChinese(ps[0].c) then [] else [ps[0]];
      assert [ps[0]][1..] == [];
      assert Flatten(head) == if head == [] then "" else PieceText(ps[0]);
      StripCount(ps[1..]);
      FlattenAppend(head, StripPieces(ps[1..]));
      CountAppend(PieceText(ps[0]), Flatten(ps[1..]), IsChinese);
      CountAppend(Flatten(head), Flatten(StripPieces(ps[1..])), IsChinese);
    }
  }

  /** A protected piece occurs in the text of the pieces, after the pieces before it. */
  lemma {:induction false} PieceOccurs(ps: seq<Piece>, k: nat)
    requires k < |ps|
    ensures OccursAt(Flatten(ps), PieceText(ps[k]), |Flatten(ps[..k])|)
  {
    assert ps == ps[..k] + [ps[k]] + ps[k + 1..];
    FlattenAppend(ps[..k] + [ps[k]], ps[k + 1..]);
    FlattenAppend(ps[..k], [ps[k]]);
    OccursInConcat(Flatten(ps[..k]), PieceText(ps[k]), Flatten(ps[k + 1..]), PieceText(ps[k]), 0);
  }

  /**
   * removeChinese keeps every protected span of its input, in order and unchanged,
   * as a part of its output; it removes CJK ideographs everywhere else; and an input
   * without CJK ideographs comes back unchanged.
   */
  lemma RemoveChineseProtectsCode(text: string)
    ensures Codes(StripPieces(ProtectedPieces(text))) == Codes(ProtectedPieces(text))
    ensures forall k :: 0 <= k < |StripPieces(ProtectedPieces(text))| ==>
              var p := StripPieces(ProtectedPieces(text))[k];
              OccursAt(RemoveChinese(text), PieceText(p), |Flatten(StripPieces(ProtectedPieces(text))[..k])|)
              && (p.Char? ==> !IsChinese(p.c))
    ensures CountChinese(RemoveChinese(text)) <= CountChinese(text)
    ensures CountChinese(text) == 0 ==> RemoveChinese(text) == text
  {
    var ps := ProtectedPieces(text);
    var out := StripPieces(ps);
    StripKeepsCodes(ps);
    forall k | 0 <= k < |out|
      ensures OccursAt(RemoveChinese(text), PieceText(out[k]), |Flatten(out[..k])|)
      ensures out[k].Char? ==> !IsChinese(out[k].c)
    {
      PieceOccurs(out, k);
      StripLeavesNoOpenChinese(ps, k);
    }
    FlattenFencePieces(text);
    FlattenInlinePieces(FencePieces(text));
    StripCount(ps);
    if CountChinese(text) == 0 {
      StripIdentity(ps);
    }
  }

  // ---------------------------------------------------------------------------
  // removeChinese as written: numbered placeholders, restored with `replace`
  // ---------------------------------------------------------------------------

  /** The placeholder `__CODE_BLOCK_${n}__`. */
  function CodeBlockToken(n: nat): string { "__CODE_BLOCK_" + NatToString(n) + "__" }

  /** The placeholder `__INLINE_CODE_${n}__`. */
  function InlineCodeToken(n: nat): string { "__INLINE_CODE_" + NatToString(n) + "__" }

  /**
   * `replace(re, m => { list.push(m); return token(list.length - 1); })`: the text of
   * the pieces with the protected ones written as tokens numbered from `next`.
   */
  function Tokenize(ps: seq<Piece>, token: nat -> string, next: nat): string
  {
    if ps == [] then ""
    else if ps[0].Code? then token(next) + Tokenize(ps[1..], token, next + 1)
    else PieceText(ps[0]) + Tokenize(ps[1..], token, next)
  }

  /** `s.replace(/[CJK]/g, '')` */
  function StripChinese(s: string): (r: string)
    ensures |r| <= |s|
  {
    if s == [] then "" else (if IsChinese(s[0]) then "" else [s[0]]) + StripChinese(s[1..])
  }

  /**
   * The text `s.replace(pattern, replacement)` puts in place of a match when
   * `pattern` is a string: ECMAScript's GetSubstitution with no capture groups, which
   * reads `$$` as `$`, `$&` as the match, `$`` as the text before it and `$'` as
   * the text after it, and any other `$` literally.
   */
  function Substitution(replacement: string, matched: string, before: string, after: string): string
    decreases |replacement|
  {
    if replacement == [] then ""
    else if replacement[0] == '$' && |replacement| >= 2 && IsSubstitutionCode(replacement[1]) then
      SubstitutionOf(replacement[1], matched, before, after)
      + Substitution(replacement[2..], matched, before, after)
    else [replacement[0]] + Substitution(replacement[1..], matched, before, after)
  }

  predicate IsSubstitutionCode(c: char) { c == '$' || c == '&' || c == '`' || c == '\'' }

  function SubstitutionOf(code: char, matched: string, before: string, after: string): string
    requires IsSubstitutionCode(code)
  {
    if code == '$' then "$" else if code == '&' then matched else if code == '`' then before else after
  }

  /** `s.replace(pattern, replacement)` with a string pattern: the first occurrence only. */
  function ReplaceFirst(s: string, pattern: string, replacement: string): string
  {
    match IndexOf(s, pattern, 0)
    case None => s
    case Some(k) =>
      s[..k] + Substitution(replacement, pattern, s[..k], s[k + |pattern|..]) + s[k + |pattern|..]
  }

  /** The text after the first `n` rounds of a restore loop over `codes`. */
  function Restored(s: string, codes: seq<string>, token: nat -> string, n: nat): string
    requires n <= |codes|
  {
    if n == 0 then s else ReplaceFirst(Restored(s, codes, token, n - 1), token(n - 1), codes[n - 1])
  }

  /** The five steps of removeChinese as the source writes them. */
  function RemoveChineseWritten(text: string): string
  {
    var blocks := FencePieces(text);
    var afterBlocks := Tokenize(blocks, CodeBlockToken, 0);
    var inline := InlinePieces(Chars(afterBlocks));
    var stripped := StripChinese(Tokenize(inline, InlineCodeToken, 0));
    var afterInline := Restored(stripped, Codes(inline), InlineCodeToken, |Codes(inline)|);
    Restored(afterInline, Codes(blocks), CodeBlockToken, |Codes(blocks)|)
  }

  /**
   * removeChinese as written: the code blocks and inline spans are pushed to two
   * lists and replaced by numbered placeholders, the CJK ideographs are removed, and
   * two loops put every listed span back with `replace`.
   */
  method RemoveChineseAsWritten(text: string) returns (r: string)
    ensures r == RemoveChineseWritten(text)
  {
    var blocks := FencePieces(text);
    var codeBlocks := Codes(blocks);
    var preservedText := Tokenize(blocks, CodeBlockToken, 0);
    var inline := InlinePieces(Chars(preservedText));
    var inlineCodes := Codes(inline);
    preservedText := StripChinese(Tokenize(inline, InlineCodeToken, 0));
    ghost var stripped := preservedText;
    var index := 0;
    while index < |inlineCodes|
      invariant index <= |inlineCodes|
      invariant preservedText == Restored(stripped, inlineCodes, InlineCodeToken, index)
    {
      preservedText := ReplaceFirst(preservedText, InlineCodeToken(index), inlineCodes[index]);
      index := index + 1;
    }
    ghost var afterInline := preservedText;
    index := 0;
    while index < |codeBlocks|
      invariant index <= |codeBlocks|
      invariant preservedText == Restored(afterInline, codeBlocks, CodeBlockToken, index)
    {
      preservedText := ReplaceFirst(preservedText, CodeBlockToken(index), codeBlocks[index]);
      index := index + 1;
    }
    r := preservedText;
  }

  /**
   * The restore step expands `$` patterns in the code it puts back: the inline span
   * `$$` comes back as `$`, although the input holds no CJK ideograph at all.
   */
  lemma DollarWritten()
    ensures RemoveChineseWritten("`$$`") == "`$`"
  {
    var text := "`$$`";
    DollarNoFence(text);
    DollarInlineSpan(text);
    DollarRestore(text);
    var blocks := FencePieces(text);
    var inline := InlinePieces(Chars(Tokenize(blocks, CodeBlockToken, 0)));
    assert inline == [Code(text)];
    assert Codes(inline) == [text] by {
      assert inline[1..] == [];
    }
    var afterInline := Restored(StripChinese(Tokenize(inline, InlineCodeToken, 0)), Codes(inline), InlineCodeToken, 1);
    assert afterInline == "`$`";
    assert Restored(afterInline, Codes(blocks), CodeBlockToken, 0) == "`$`";
  }

  /** The piecewise definition gives the same input back unchanged. */
  lemma DollarCorrected()
    ensures RemoveChinese("`$$`") == "`$$`"
  {
    var text := "`$$`";
    RemoveChineseProtectsCode(text);
    assert CountChinese(text) == 0 by {
      CountZero(text, IsChinese);
    }
  }

  lemma DollarNoFence(text: string)
    requires text == "`$$`"
    ensures FencePieces(text) == Chars(text) && Codes(Chars(text)) == []
    ensures Tokenize(FencePieces(text), CodeBlockToken, 0) == text
  {
    assert IndexOf(text, Fence, 0) == None by {
      assert text[0..3][1] != Fence[1];
      assert text[1..4][0] != Fence[0];
    }
    CodesOfChars(text);
    TokenizeChars(text, CodeBlockToken, 0);
  }

  lemma DollarInlineSpan(text: string)
    requires text == "`$$`"
    ensures InlinePieces(Chars(text)) == [Code(text)]
    ensures Tokenize([Code(text)], InlineCodeToken, 0) == InlineCodeToken(0)
  {
    var ps := Chars(text);
    assert NextTick(ps, 1) == Some(3) by {
      assert !IsTick(ps[1]) && !IsTick(ps[2]) && IsTick(ps[3]);
    }
    assert ps[..4] == ps;
    FlattenChars(text);
    assert IsTick(ps[0]) && ps[4..] == [];
    assert InlinePieces(ps) == [Code(Flatten(ps[..4]))] + InlinePieces(ps[4..]);
    assert [Code(text)][1..] == [];
  }

  lemma DollarRestore(text: string)
    requires text == "`$$`"
    ensures Restored(StripChinese(InlineCodeToken(0)), [text], InlineCodeToken, 1) == "`$`"
  {
    var token := InlineCodeToken(0);
    TokensSurviveStrip(0);
    assert Restored(token, [text], InlineCodeToken, 0) == token;
    ReplaceWhole(token, text);
    SubstituteDollars(text, token);
  }

  /** Replacing a whole text by `replacement` gives the expansion of `replacement`. */
  lemma ReplaceWhole(t: string, replacement: string)
    ensures ReplaceFirst(t, t, replacement) == Substitution(replacement, t, "", "")
  {
    assert IndexOf(t, t, 0) == Some(0) by {
      assert t[0..|t|] == t;
    }
    var before, after := t[..0], t[|t|..];
    assert before == "" && after == "";
    var x := Substitution(replacement, t, before, after);
    assert ReplaceFirst(t, t, replacement) == before + x + after;
    assert before + x + after == x;
  }

  lemma SubstituteDollars(text: string, matched: string)
    requires text == "`$$`"
    ensures Substitution(text, matched, "", "") == "`$`"
  {
    assert Substitution("", matched, "", "") == "";
    assert "`"[1..] == "";
    assert Substitution("`", matched, "", "") == "`";
    assert "$$`"[2..] == "`";
    assert Substitution("$$`", matched, "", "") == "$`";
    assert text[1..] == "$$`";
  }

  lemma TokensSurviveStrip(n: nat)
    ensures StripChinese(InlineCodeToken(n)) == InlineCodeToken(n)
    ensures StripChinese(CodeBlockToken(n)) == CodeBlockToken(n)
  {
    TokensAreAscii(n);
    StripChineseIdentity(InlineCodeToken(n));
    StripChineseIdentity(CodeBlockToken(n));
  }

  /** The placeholders are ASCII text without a backtick. */
  lemma TokensAreAscii(n: nat)
    ensures forall i :: 0 <= i < |InlineCodeToken(n)| ==> InlineCodeToken(n)[i] < 128 as char && InlineCodeToken(n)[i] != '`'
    ensures forall i :: 0 <= i < |CodeBlockToken(n)| ==> CodeBlockToken(n)[i] < 128 as char && CodeBlockToken(n)[i] != '`'
  {
    var d := NatToString(n);
    var a, b := "__INLINE_CODE_", "__CODE_BLOCK_";
    assert forall i :: 0 <= i < |a| ==> a[i] < 128 as char && a[i] != '`';
    assert forall i :: 0 <= i < |b| ==> b[i] < 128 as char && b[i] != '`';
    assert forall i :: 0 <= i < |d| ==> d[i] < 128 as char && d[i] != '`';
  }

  lemma {:induction false} CodesOfChars(s: string)
    ensures Codes(Chars(s)) == []
  {
    if s != [] {
      assert Chars(s)[1..] == Chars(s[1..]);
      CodesOfChars(s[1..]);
    }
  }

  lemma {:induction false} TokenizeChars(s: string, token: nat -> string, next: nat)
    ensures Tokenize(Chars(s), token, next) == s
  {
    if s != [] {
      assert Chars(s)[1..] == Chars(s[1..]);
      TokenizeChars(s[1..], token, next);
    }
  }

  lemma {:induction false} StripChineseIdentity(s: string)
    requires forall i :: 0 <= i < |s| ==> !IsChinese(s[i])
    ensures StripChinese(s) == s
  {
    if s != [] {
      StripChineseIdentity(s[1..]);
    }
  }

  /**
   * The block restore expands `$`` too: it stands for the text in front of the
   * placeholder, so an inline span holding an ideograph in front of the fence is
   * copied into the block, and the result holds two CJK ideographs where the input
   * held one.
   */
  lemma BacktickWritten()
    ensures RemoveChineseWritten("`中` ```$` ```") == "`中` " + "```" + "`中` " + " ```"
    ensures CountChinese("`中` ```$` ```") == 1
    ensures CountChinese("`中` " + "```" + "`中` " + " ```") == 2
  {
    var text, open, block, span := "`中` ```$` ```", "`中` ", "```$` ```", "`中`";
    var rest := " " + CodeBlockToken(0);
    BacktickBlockFacts(text, open, block, span, rest, span + rest);
    BacktickInlineFacts(open, block, span, rest, span + rest);
    WrittenSteps(text, open, span, block, rest, span + rest, open + "```" + open + " ```");
    BacktickCounts(text, open, block);
  }

  /** What the first step of removeChinese meets in the example. */
  lemma BacktickBlockFacts(text: string, open: string, block: string, span: string, rest: string, afterBlocks: string)
    requires text == "`中` ```$` ```" && open == "`中` " && block == "```$` ```" && span == "`中`"
    requires rest == " " + CodeBlockToken(0) && afterBlocks == span + rest
    ensures FencePieces(text) == Chars(open) + [Code(block)] && afterBlocks == open + CodeBlockToken(0)
  {
    BacktickFences(text, open, block);
    BacktickSpan(open, span);
    RegroupSpace(open, span, rest, afterBlocks, CodeBlockToken(0));
  }

  /** Moving the space between a span and a token from one side to the other. */
  lemma RegroupSpace(open: string, span: string, rest: string, s: string, token: string)
    requires open == span + " " && rest == " " + token && s == span + rest
    ensures s == open + token
  {
  }

  /** What the later steps of removeChinese meet in the example. */
  lemma BacktickInlineFacts(open: string, block: string, span: string, rest: string, afterBlocks: string)
    requires open == "`中` " && block == "```$` ```" && span == "`中`"
    requires rest == " " + CodeBlockToken(0) && afterBlocks == span + rest
    ensures InlinePieces(Chars(afterBlocks)) == [Code(span)] + Chars(rest)
    ensures forall i :: 0 <= i < |span| ==> span[i] != '$'
    ensures Restored(afterBlocks, [block], CodeBlockToken, 1) == open + "```" + open + " ```"
  {
    BacktickInlineSpan(afterBlocks, span, rest);
    BacktickBlockRestore(afterBlocks, open, block, CodeBlockToken(0));
    assert Restored(afterBlocks, [block], CodeBlockToken, 0) == afterBlocks;
  }

  /**
   * The five steps of removeChinese on a text made of one inline span, a space and
   * one fenced block, given the text after the first step.
   */
  lemma WrittenSteps(text: string, open: string, span: string, block: string, rest: string, afterBlocks: string, result: string)
    requires FencePieces(text) == Chars(open) + [Code(block)] && afterBlocks == open + CodeBlockToken(0)
    requires afterBlocks == span + rest && rest == " " + CodeBlockToken(0)
    requires InlinePieces(Chars(afterBlocks)) == [Code(span)] + Chars(rest)
    requires forall i :: 0 <= i < |span| ==> span[i] != '$'
    requires Restored(afterBlocks, [block], CodeBlockToken, 1) == result
    ensures RemoveChineseWritten(text) == result
  {
    BlockStage(open, block);
    InlineStage(span, rest);
    RestoreStage(span, rest);
    WrittenUnfold(text, afterBlocks, [Code(span)] + Chars(rest), InlineCodeToken(0) + rest, [span], [block], result);
  }

  /** Step 4: the inline placeholder is replaced by its span, which holds no `$`. */
  lemma RestoreStage(span: string, rest: string)
    requires forall i :: 0 <= i < |span| ==> span[i] != '$'
    ensures Restored(InlineCodeToken(0) + rest, [span], InlineCodeToken, 1) == span + rest
  {
    var token := InlineCodeToken(0);
    assert Restored(token + rest, [span], InlineCodeToken, 0) == token + rest;
    ReplacePrefix(token, rest, span);
  }

  /** RemoveChineseWritten, given the value of each of its steps. */
  lemma WrittenUnfold(text: string, afterBlocks: string, inline: seq<Piece>, stripped: string,
                      inlineCodes: seq<string>, blockCodes: seq<string>, result: string)
    requires Codes(FencePieces(text)) == blockCodes && Tokenize(FencePieces(text), CodeBlockToken, 0) == afterBlocks
    requires InlinePieces(Chars(afterBlocks)) == inline && Codes(inline) == inlineCodes
    requires StripChinese(Tokenize(inline, InlineCodeToken, 0)) == stripped
    requires Restored(Restored(stripped, inlineCodes, InlineCodeToken, |inlineCodes|), blockCodes, CodeBlockToken, |blockCodes|) == result
    ensures RemoveChineseWritten(text) == result
  {
  }

  /** Step 1: the one block becomes the placeholder `__CODE_BLOCK_0__` after the open text. */
  lemma BlockStage(open: string, block: string)
    ensures Codes(Chars(open) + [Code(block)]) == [block]
    ensures Tokenize(Chars(open) + [Code(block)], CodeBlockToken, 0) == open + CodeBlockToken(0)
  {
    CodesOfChars(open);
    CodesAppend(Chars(open), [Code(block)]);
    assert Codes([Code(block)]) == [block];
    TokenizeAppend(Chars(open), [Code(block)], CodeBlockToken, 0);
    TokenizeChars(open, CodeBlockToken, 0);
    assert Tokenize([Code(block)], CodeBlockToken, 0) == CodeBlockToken(0);
  }

  /** Steps 2 and 3: the span becomes `__INLINE_CODE_0__`, and the placeholders hold no CJK to strip. */
  lemma InlineStage(span: string, rest: string)
    requires rest == " " + CodeBlockToken(0)
    ensures Codes([Code(span)] + Chars(rest)) == [span]
    ensures StripChinese(Tokenize([Code(span)] + Chars(rest), InlineCodeToken, 0)) == InlineCodeToken(0) + rest
  {
    var inline := [Code(span)] + Chars(rest);
    assert inline[1..] == Chars(rest);
    CodesOfChars(rest);
    TokenizeChars(rest, InlineCodeToken, 1);
    assert Tokenize(inline, InlineCodeToken, 0) == InlineCodeToken(0) + rest;
    TokensAreAscii(0);
    assert forall i :: 0 <= i < |rest| ==> rest[i] < 128 as char;
    StripChineseIdentity(InlineCodeToken(0) + rest);
  }

  /** The piecewise definition gives the same input back unchanged. */
  lemma BacktickCorrected()
    ensures RemoveChinese("`中` ```$` ```") == "`中` ```$` ```"
  {
    var text, open, block, span := "`中` ```$` ```", "`中` ", "```$` ```", "`中`";
    BacktickFences(text, open, block);
    BacktickSpan(open, span);
    CorrectedSteps(text, open, span, block);
  }

  lemma BacktickSpan(open: string, span: string)
    requires open == "`中` " && span == "`中`"
    ensures open == span + " "
    ensures |span| == 3 && span[0] == '`' && span[1] != '`' && span[2] == '`'
  {
  }

  /** The piecewise removeChinese on one inline span, a space and one fenced block. */
  lemma CorrectedSteps(text: string, open: string, span: string, block: string)
    requires FencePieces(text) == Chars(open) + [Code(block)] && open == span + " "
    requires |span| == 3 && span[0] == '`' && span[1] != '`' && span[2] == '`'
    requires text == open + block
    ensures RemoveChinese(text) == text
  {
    CorrectedInline(open, span, block);
    CorrectedFlatten(span, block);
    assert text == span + (" " + block);
  }

  /** The inline pieces of one span, a space and one fenced block. */
  lemma CorrectedInline(open: string, span: string, block: string)
    requires open == span + " "
    requires |span| == 3 && span[0] == '`' && span[1] != '`' && span[2] == '`'
    ensures InlinePieces(Chars(open) + [Code(block)]) == [Code(span), Char(' '), Code(block)]
  {
    var ps := Chars(open) + [Code(block)];
    assert ps[0] == Char('`') && ps[1] == Char(span[1]) && ps[2] == Char('`');
    assert NextTick(ps, 1) == Some(2);
    assert ps[..3] == Chars(span);
    FlattenChars(span);
    var tail := [Char(' '), Code(block)];
    assert ps[3..] == tail;
    assert tail[1..] == [Code(block)] && [Code(block)][1..] == [];
    NoTickInline(tail);
  }

  /** Stripping and flattening those pieces gives back the text. */
  lemma CorrectedFlatten(span: string, block: string)
    ensures Flatten(StripPieces([Code(span), Char(' '), Code(block)])) == span + (" " + block)
  {
    var tail := [Char(' '), Code(block)];
    var pieces := [Code(span)] + tail;
    assert pieces[1..] == tail;
    assert tail[1..] == [Code(block)] && [Code(block)][1..] == [];
    assert StripPieces([Code(block)]) == [Code(block)];
    assert StripPieces(tail) == tail;
    assert StripPieces(pieces) == pieces;
    FlattenOne(Code(block), []);
    FlattenOne(Char(' '), [Code(block)]);
    assert Flatten(tail) == " " + block;
    FlattenOne(Code(span), tail);
  }

  /** The one fenced block of the example, after the open text `` `中` ``. */
  lemma BacktickFences(text: string, open: string, block: string)
    requires text == "`中` ```$` ```" && open == "`中` " && block == "```$` ```"
    ensures FencePieces(text) == Chars(open) + [Code(block)]
    ensures text == open + block
  {
    BacktickFenceOffsets(text);
    assert FenceAt(text) == Some((4, 13));
    BacktickSlices(text, open, block);
    assert FencePieces("") == [];
  }

  lemma BacktickSlices(text: string, open: string, block: string)
    requires text == "`中` ```$` ```" && open == "`中` " && block == "```$` ```"
    ensures |text| == 13 && text[..4] == open && text[4..13] == block && text[13..] == ""
    ensures text == open + block
  {
  }

  lemma BacktickFenceOffsets(text: string)
    requires text == "`中` ```$` ```"
    ensures IndexOf(text, Fence, 0) == Some(4) && IndexOf(text, Fence, 7) == Some(10)
  {
    assert text[1] == '中' && text[3] == ' ' && text[7] == '$' && text[9] == ' ';
    assert text[4..7] == Fence && text[10..13] == Fence;
    forall j | 0 <= j < 4
      ensures !OccursAt(text, Fence, j)
    {
      if j < 2 { NotAt(text, Fence, j, 1); } else { NotAt(text, Fence, j, 3); }
    }
    forall j | 7 <= j < 10
      ensures !OccursAt(text, Fence, j)
    {
      if j == 7 { NotAt(text, Fence, j, 7); } else { NotAt(text, Fence, j, 9); }
    }
    IndexOfAt(text, Fence, 0, 4);
    IndexOfAt(text, Fence, 7, 10);
  }

  /** The inline span `` `中` `` at the front, then text without a backtick. */
  lemma BacktickInlineSpan(s: string, span: string, rest: string)
    requires span == "`中`" && s == span + rest
    requires rest == " " + CodeBlockToken(0)
    ensures InlinePieces(Chars(s)) == [Code(span)] + Chars(rest)
    ensures Codes(InlinePieces(Chars(s))) == [span]
    ensures Tokenize(InlinePieces(Chars(s)), InlineCodeToken, 0) == InlineCodeToken(0) + rest
    ensures forall i :: 0 <= i < |span| ==> span[i] != '$'
  {
    assert |span| == 3 && span[0] == '`' && span[1] == '中' && span[2] == '`';
    SpanInline(s, span, rest);
  }

  /** A three-character inline span followed by a space and a block placeholder. */
  lemma SpanInline(s: string, span: string, rest: string)
    requires |span| == 3 && span[0] == '`' && span[1] != '`' && span[1] != '$' && span[2] == '`'
    requires s == span + rest && rest == " " + CodeBlockToken(0)
    ensures InlinePieces(Chars(s)) == [Code(span)] + Chars(rest)
    ensures Codes(InlinePieces(Chars(s))) == [span]
    ensures Tokenize(InlinePieces(Chars(s)), InlineCodeToken, 0) == InlineCodeToken(0) + rest
    ensures forall i :: 0 <= i < |span| ==> span[i] != '$'
  {
    var ps := Chars(s);
    assert ps[0] == Char('`') && ps[1] == Char(span[1]) && ps[2] == Char('`');
    assert NextTick(ps, 1) == Some(2);
    assert ps[..3] == Chars(span);
    FlattenChars(span);
    assert ps[3..] == Chars(rest);
    TokensAreAscii(0);
    NoTickInline(Chars(rest));
    var inline := [Code(span)] + Chars(rest);
    assert InlinePieces(ps) == inline;
    assert inline[1..] == Chars(rest);
    CodesOfChars(rest);
    TokenizeChars(rest, InlineCodeToken, 1);
  }

  /** Restoring the block: the `$`` in it becomes the text before the placeholder. */
  lemma BacktickBlockRestore(s: string, open: string, block: string, token: string)
    requires open == "`中` " && block == "```$` ```" && token == CodeBlockToken(0)
    requires s == "`中`" + (" " + token)
    ensures ReplaceFirst(s, token, block) == open + "```" + open + " ```"
  {
    TokensAreAscii(0);
    assert token[0] == '_';
    assert s[0] == '`' && s[1] == '中' && s[2] == '`' && s[3] == ' ';
    forall j | 0 <= j < 4
      ensures !OccursAt(s, token, j)
    {
      NotAt(s, token, j, j);
    }
    assert s[4..4 + |token|] == token;
    IndexOfAt(s, token, 0, 4);
    assert s[..4] == open && s[4 + |token|..] == "";
    SubstituteBacktick(block, token, open);
  }

  lemma SubstituteBacktick(block: string, matched: string, before: string)
    requires block == "```$` ```"
    ensures Substitution(block, matched, before, "") == "```" + before + " ```"
  {
    assert block == "```" + "$`" + " ```";
    SubstituteOneBacktick("```", " ```", matched, before, "");
  }

  /** A replacement whose only `$` pattern is one `$`` puts the text before the match in its place. */
  lemma {:induction false} SubstituteOneBacktick(a: string, b: string, matched: string, before: string, after: string)
    requires forall i :: 0 <= i < |a| ==> a[i] != '$'
    requires forall i :: 0 <= i < |b| ==> b[i] != '$'
    ensures Substitution(a + "$`" + b, matched, before, after) == a + before + b
    decreases |a|
  {
    if a == [] {
      var r := "$`" + b;
      assert a + "$`" + b == r;
      assert r[0] == '$' && r[1] == '`' && r[2..] == b;
      NoDollarSubstitution(b, matched, before, after);
    } else {
      assert (a + "$`" + b)[1..] == a[1..] + "$`" + b;
      SubstituteOneBacktick(a[1..], b, matched, before, after);
    }
  }

  /** The example input holds one CJK ideograph and the as-written result two. */
  lemma BacktickCounts(text: string, open: string, block: string)
    requires text == "`中` ```$` ```" && open == "`中` " && block == "```$` ```"
    ensures CountChinese(text) == 1 && CountChinese(open + "```" + open + " ```") == 2
  {
    assert CountChinese("中") == 1 by {
      assert "中"[1..] == "";
    }
    assert CountChinese("`") == 0 && CountChinese("` ") == 0 by {
      CountZero("`", IsChinese);
      CountZero("` ", IsChinese);
    }
    assert open == "`" + "中" + "` ";
    CountAppend("`", "中", IsChinese);
    CountAppend("`" + "中", "` ", IsChinese);
    CountZero(block, IsChinese);
    CountZero("```", IsChinese);
    CountZero(" ```", IsChinese);
    assert text == open + block;
    CountAppend(open, block, IsChinese);
    CountAppend(open, "```", IsChinese);
    CountAppend(open + "```", open, IsChinese);
    CountAppend(open + "```" + open, " ```", IsChinese);
  }

  /** A replacement without `$` is put in as it is. */
  lemma {:induction false} NoDollarSubstitution(r: string, matched: string, before: string, after: string)
    requires forall i :: 0 <= i < |r| ==> r[i] != '$'
    ensures Substitution(r, matched, before, after) == r
    decreases |r|
  {
    if r != [] {
      NoDollarSubstitution(r[1..], matched, before, after);
    }
  }

  /** Replacing a prefix of the text by a replacement without `$`. */
  lemma ReplacePrefix(token: string, rest: string, replacement: string)
    requires |token| > 0 && forall i :: 0 <= i < |replacement| ==> replacement[i] != '$'
    ensures ReplaceFirst(token + rest, token, replacement) == replacement + rest
  {
    var s := token + rest;
    assert s[0..|token|] == token;
    assert IndexOf(s, token, 0) == Some(0);
    assert s[..0] == "" && s[|token|..] == rest;
    NoDollarSubstitution(replacement, token, "", rest);
  }

  /** Pieces without a backtick hold no inline span. */
  lemma {:induction false} NoTickInline(ps: seq<Piece>)
    requires forall i :: 0 <= i < |ps| ==> !IsTick(ps[i])
    ensures InlinePieces(ps) == ps
    decreases |ps|
  {
    if ps != [] {
      NoTickInline(ps[1..]);
    }
  }

  /** `p` does not occur at `j` when the code unit at `i` disagrees with it. */
  lemma NotAt(s: string, p: string, j: nat, i: nat)
    requires j <= i < j + |p| && i < |s| && s[i] != p[i - j]
    ensures !OccursAt(s, p, j)
  {
    assert j + |p| > |s| || s[j..j + |p|][i - j] != p[i - j];
  }

  /** IndexOf finds a match that no earlier offset has. */
  lemma IndexOfAt(s: string, p: string, from: nat, k: nat)
    requires from <= k && OccursAt(s, p, k) && forall j :: from <= j < k ==> !OccursAt(s, p, j)
    ensures IndexOf(s, p, from) == Some(k)
  {
  }

  /** Tokenizing two runs of pieces one after the other. */
  lemma {:induction false} TokenizeAppend(a: seq<Piece>, b: seq<Piece>, token: nat -> string, next: nat)
    ensures Tokenize(a + b, token, next) == Tokenize(a, token, next) + Tokenize(b, token, next + |Codes(a)|)
    decreases |a|
  {
    if a == [] {
      assert a + b == b;
    } else {
      assert (a + b)[1..] == a[1..] + b;
      TokenizeAppend(a[1..], b, token, next + (if a[0].Code? then 1 else 0));
    }
  }

  // ---------------------------------------------------------------------------
  // cleanWhitespace
  // ---------------------------------------------------------------------------

  predicate IsLineFeed(c: char) { c == '\n' }

  predicate IsBlank(c: char) { c == ' ' || c == '\t' }

  /** `s` without the run of `inRun` characters it starts with. */
  function DropLeading(s: string, inRun: char -> bool): (r: string)
    ensures |r| <= |s| && r == s[|s| - |r|..]
    ensures r == [] || !inRun(r[0])
    ensures forall k :: 0 <= k < |s| - |r| ==> inRun(s[k])
  {
    if s != [] && inRun(s[0]) then
      var r := DropLeading(s[1..], inRun);
      assert forall k :: 1 <= k < |s| - |r| ==> s[k] == s[1..][k - 1];
      r
    else s
  }

  /** No three line feeds in a row. */
  ghost predicate NoTripleLineFeed(s: string) {
    forall i :: 0 <= i < |s| - 2 ==> !(s[i] == '\n' && s[i + 1] == '\n' && s[i + 2] == '\n')
  }

  /** `s.replace(/\n\n\n+/g, '\n\n')`: every run of three or more line feeds becomes two. */
  function CollapseBlankLines(s: string): (r: string)
    ensures |r| <= |s|
    ensures |r| > 0 && r[0] == '\n' ==> |s| > 0 && s[0] == '\n'
    ensures |r| > 1 && r[0] == '\n' && r[1] == '\n' ==> |s| > 1 && s[0] == '\n' && s[1] == '\n'
    ensures NoTripleLineFeed(r)
    decreases |s|
  {
    if s == [] then ""
    else if |s| >= 3 && s[0] == '\n' && s[1] == '\n' && s[2] == '\n' then
      var rest := CollapseBlankLines(DropLeading(s[3..], IsLineFeed));
      TwoLineFeedsThen(rest);
      "\n\n" + rest
    else
      var rest := CollapseBlankLines(s[1..]);
      CharThen(s[0], rest);
      [s[0]] + rest
  }

  /** Two line feeds before a text that has no triple and does not open with a line feed make no triple. */
  lemma TwoLineFeedsThen(rest: string)
    requires NoTripleLineFeed(rest) && (rest == [] || rest[0] != '\n')
    ensures NoTripleLineFeed("\n\n" + rest)
  {
    var t := "\n\n" + rest;
    forall i | 0 <= i < |t| - 2
      ensures !(t[i] == '\n' && t[i + 1] == '\n' && t[i + 2] == '\n')
    {
      if i >= 2 {
        assert t[i] == rest[i - 2] && t[i + 1] == rest[i - 1] && t[i + 2] == rest[i];
      } else {
        assert t[2] == rest[0];
      }
    }
  }

  /** One character before a text that has no triple makes none unless it is a line feed before two more. */
  lemma CharThen(c: char, rest: string)
    requires NoTripleLineFeed(rest) && !(c == '\n' && |rest| > 1 && rest[0] == '\n' && rest[1] == '\n')
    ensures NoTripleLineFeed([c] + rest)
  {
    var t := [c] + rest;
    forall i | 0 <= i < |t| - 2
      ensures !(t[i] == '\n' && t[i + 1] == '\n' && t[i + 2] == '\n')
    {
      assert t[i + 1] == rest[i] && t[i + 2] == rest[i + 1];
      if i >= 1 {
        assert t[i] == rest[i - 1];
      }
    }
  }

  /** A text without three line feeds in a row is left as it is, so collapsing twice is collapsing once. */
  lemma {:induction false} CollapseBlankLinesIdentity(s: string)
    requires NoTripleLineFeed(s)
    ensures CollapseBlankLines(s) == s
    decreases |s|
  {
    if s != [] {
      assert !(|s| >= 3 && s[0] == '\n' && s[1] == '\n' && s[2] == '\n');
      assert NoTripleLineFeed(s[1..]) by {
        forall i | 0 <= i < |s[1..]| - 2
          ensures !(s[1..][i] == '\n' && s[1..][i + 1] == '\n' && s[1..][i + 2] == '\n')
        {
          assert s[1..][i] == s[i + 1] && s[1..][i + 1] == s[i + 2] && s[1..][i + 2] == s[i + 3];
        }
      }
      CollapseBlankLinesIdentity(s[1..]);
    }
  }

  lemma CollapseBlankLinesIdempotent(s: string)
    ensures CollapseBlankLines(CollapseBlankLines(s)) == CollapseBlankLines(s)
  {
    CollapseBlankLinesIdentity(CollapseBlankLines(s));
  }

  /** Every space or tab is followed by a character that does not end a line. */
  ghost predicate NoBlankAtLineEnd(s: string) {
    forall i :: 0 <= i < |s| && IsBlank(s[i]) ==> i + 1 < |s| && !IsLineTerminator(s[i + 1])
  }

  /** `s.replace(/[ \t]+$/gm, '')`: drop every run of spaces and tabs that ends a line or the text. */
  function StripLineEndBlanks(s: string): (r: string)
    ensures |r| <= |s|
    ensures s != [] && !IsBlank(s[0]) ==> r != [] && r[0] == s[0]
    ensures NoBlankAtLineEnd(r)
    decreases |s|
  {
    if s == [] then ""
    else if IsBlank(s[0]) then
      var t := DropLeading(s, IsBlank);
      if t == [] || IsLineTerminator(t[0]) then StripLineEndBlanks(t)
      else
        var run, rest := s[..|s| - |t|], StripLineEndBlanks(t);
        RunBeforeText(run, rest);
        assert (run + rest)[0] == s[0];
        run + rest
    else
      var rest := StripLineEndBlanks(s[1..]);
      CharBeforeText(s[0], rest);
      [s[0]] + rest
  }

  /** Blanks kept in front of text that does not start a new line still end no line. */
  lemma RunBeforeText(run: string, rest: string)
    requires forall i :: 0 <= i < |run| ==> IsBlank(run[i])
    requires rest != [] && !IsLineTerminator(rest[0]) && NoBlankAtLineEnd(rest)
    ensures NoBlankAtLineEnd(run + rest)
  {
    var r := run + rest;
    forall i | 0 <= i < |r| && IsBlank(r[i])
      ensures i + 1 < |r| && !IsLineTerminator(r[i + 1])
    {
      if i + 1 < |run| {
        assert IsBlank(run[i + 1]);
      } else if i + 1 == |run| {
        assert r[i + 1] == rest[0];
      } else {
        assert r[i] == rest[i - |run|] && r[i + 1] == rest[i + 1 - |run|];
      }
    }
  }

  /** A character that is no blank, put in front, adds no blank at a line end. */
  lemma CharBeforeText(c: char, rest: string)
    requires !IsBlank(c) && NoBlankAtLineEnd(rest)
    ensures NoBlankAtLineEnd([c] + rest)
  {
    var r := [c] + rest;
    forall i | 0 <= i < |r| && IsBlank(r[i])
      ensures i + 1 < |r| && !IsLineTerminator(r[i + 1])
    {
      assert i > 0 && r[i] == rest[i - 1] && r[i + 1] == rest[i];
    }
  }

  /**
   * cleanWhitespace: runs of three or more line feeds collapsed to two, blanks at
   * the end of a line dropped, and the whole trimmed. The result has no white space
   * at either end and no line that ends in a space or tab.
   */
  function CleanWhitespace(text: string): (r: string)
    ensures |r| <= |text|
    ensures r == [] || (!IsJsWhitespace(r[0]) && !IsJsWhitespace(r[|r| - 1]))
    ensures NoBlankAtLineEnd(r)
  {
    var s := StripLineEndBlanks(CollapseBlankLines(text));
    var r := Trim(s);
    TrimKeepsNoBlankAtLineEnd(s);
    r
  }

  lemma TrimKeepsNoBlankAtLineEnd(s: string)
    requires NoBlankAtLineEnd(s)
    ensures NoBlankAtLineEnd(Trim(s))
  {
    var r := Trim(s);
    var k :| OccursAt(s, r, k);
    forall i | 0 <= i < |r| && IsBlank(r[i])
      ensures i + 1 < |r| && !IsLineTerminator(r[i + 1])
    {
      assert r[i] == s[k + i];
      assert i != |r| - 1;
      assert r[i + 1] == s[k + i + 1];
    }
  }

  /** The white space cleanWhitespace removes is never a character `inClass` counts. */
  ghost predicate CountsNoWhitespace(inClass: char -> bool) {
    forall c :: inClass(c) ==> !IsJsWhitespace(c)
  }

  lemma {:induction false} WhitespaceCountsZero(w: string, inClass: char -> bool)
    requires CountsNoWhitespace(inClass)
    requires forall i :: 0 <= i < |w| ==> IsJsWhitespace(w[i])
    ensures Count(w, inClass) == 0
  {
    if w != [] {
      WhitespaceCountsZero(w[1..], inClass);
    }
  }

  lemma {:induction false} DropLeadingCount(s: string, inRun: char -> bool, inClass: char -> bool)
    requires forall c :: inRun(c) ==> !inClass(c)
    ensures Count(DropLeading(s, inRun), inClass) == Count(s, inClass)
  {
    if s != [] && inRun(s[0]) {
      DropLeadingCount(s[1..], inRun, inClass);
    }
  }

  /** A run of line feeds counts nothing, before and after it is collapsed. */
  lemma CollapseRunCount(s: string, t: string, u: string, inClass: char -> bool)
    requires !inClass('\n')
    requires |s| >= 3 && s[0] == '\n' && s[1] == '\n' && s[2] == '\n'
    requires Count(t, inClass) == Count(s[3..], inClass)
    requires Count(u, inClass) == Count(t, inClass)
    ensures Count("\n\n" + u, inClass) == Count(s, inClass)
  {
    assert s[1..][1..] == s[2..] && s[2..][1..] == s[3..];
    assert Count(s, inClass) == Count(s[1..], inClass) == Count(s[2..], inClass) == Count(s[3..], inClass);
    var w := "\n\n" + u;
    assert w[1..][1..] == u;
    assert Count(w, inClass) == Count(w[1..], inClass) == Count(u, inClass);
  }

  lemma {:induction false} CollapseCount(s: string, inClass: char -> bool)
    requires CountsNoWhitespace(inClass)
    ensures Count(CollapseBlankLines(s), inClass) == Count(s, inClass)
    decreases |s|
  {
    if s == [] {
    } else if |s| >= 3 && s[0] == '\n' && s[1] == '\n' && s[2] == '\n' {
      var t := DropLeading(s[3..], IsLineFeed);
      CollapseCount(t, inClass);
      DropLeadingCount(s[3..], IsLineFeed, inClass);
      CollapseRunCount(s, t, CollapseBlankLines(t), inClass);
    } else {
      CollapseCount(s[1..], inClass);
      CountAppend([s[0]], CollapseBlankLines(s[1..]), inClass);
    }
  }

  lemma {:induction false} StripLineEndBlanksCount(s: string, inClass: char -> bool)
    requires CountsNoWhitespace(inClass)
    ensures Count(StripLineEndBlanks(s), inClass) == Count(s, inClass)
    decreases |s|
  {
    if s == [] {
    } else if IsBlank(s[0]) {
      var t := DropLeading(s, IsBlank);
      StripLineEndBlanksCount(t, inClass);
      DropLeadingCount(s, IsBlank, inClass);
      if !(t == [] || IsLineTerminator(t[0])) {
        var run := s[..|s| - |t|];
        assert s == run + t;
        CountAppend(run, t, inClass);
        CountAppend(run, StripLineEndBlanks(t), inClass);
      }
    } else {
      StripLineEndBlanksCount(s[1..], inClass);
      CountAppend([s[0]], StripLineEndBlanks(s[1..]), inClass);
    }
  }

  lemma {:induction false} TrimStartCount(s: string, inClass: char -> bool)
    requires CountsNoWhitespace(inClass)
    ensures Count(TrimStart(s), inClass) == Count(s, inClass)
  {
    if |s| > 0 && IsJsWhitespace(s[0]) {
      TrimStartCount(s[1..], inClass);
    }
  }

  lemma {:induction false} TrimEndCount(s: string, inClass: char -> bool)
    requires CountsNoWhitespace(inClass)
    ensures Count(TrimEnd(s), inClass) == Count(s, inClass)
  {
    if |s| > 0 && IsJsWhitespace(s[|s| - 1]) {
      var init := s[..|s| - 1];
      TrimEndCount(init, inClass);
      assert s == init + [s[|s| - 1]];
      CountAppend(init, [s[|s| - 1]], inClass);
    }
  }

  lemma ScriptsAreNotWhitespace()
    ensures CountsNoWhitespace(IsChinese) && CountsNoWhitespace(IsKorean)
  {
  }

  /** cleanWhitespace removes only white space: it keeps every Hangul and CJK code unit. */
  lemma CleanWhitespaceKeepsScripts(text: string)
    ensures CountChinese(CleanWhitespace(text)) == CountChinese(text)
    ensures CountKorean(CleanWhitespace(text)) == CountKorean(text)
  {
    var c := CollapseBlankLines(text);
    var s := StripLineEndBlanks(c);
    ScriptsAreNotWhitespace();
    CollapseCount(text, IsChinese);
    CollapseCount(text, IsKorean);
    StripLineEndBlanksCount(c, IsChinese);
    StripLineEndBlanksCount(c, IsKorean);
    TrimStartCount(s, IsChinese);
    TrimStartCount(s, IsKorean);
    TrimEndCount(TrimStart(s), IsChinese);
    TrimEndCount(TrimStart(s), IsKorean);
  }

  // ---------------------------------------------------------------------------
  // cleanParagraphWise
  // ---------------------------------------------------------------------------

  const ParagraphBreak: string := "\n\n"

  /**
   * One paragraph: cleaned when it holds a CJK ideograph, kept otherwise. The cleaning
   * is the corrected RemoveChinese; the as-written one can add ideographs (BacktickWritten).
   */
  function CleanParagraph(para: string): (r: string)
    ensures CountChinese(r) <= CountChinese(para)
    ensures CountChinese(para) == 0 ==> r == para
  {
    RemoveChineseProtectsCode(para);
    if AnalyzeLanguageContent(para).chineseCount > 0 then RemoveChinese(para) else para
  }

  /** `para.trim().length > 0` */
  predicate HasText(para: string) { Trim(para) != "" }

  /** `ps.filter(keep)` */
  function Filter(ps: seq<string>, keep: string -> bool): (r: seq<string>)
    ensures |r| <= |ps|
    ensures forall q :: q in r <==> q in ps && keep(q)
  {
    if ps == [] then []
    else (if keep(ps[0]) then [ps[0]] else []) + Filter(ps[1..], keep)
  }

  /** `.filter(para => para.trim().length > 0)` */
  function NonBlank(ps: seq<string>): seq<string> { Filter(ps, HasText) }

  /**
   * cleanParagraphWise: the text split at every "\n\n", each paragraph cleaned, the
   * blank ones dropped and the rest joined again with "\n\n".
   */
  function CleanParagraphWise(text: string): string
  {
    var paragraphs := Split(text, ParagraphBreak);
    Join(NonBlank(seq(|paragraphs|, i requires 0 <= i < |paragraphs| => CleanParagraph(paragraphs[i]))), ParagraphBreak)
  }

  /** The positions in `ps` of the elements `Filter(ps, keep)` keeps. */
  function FilterIndices(ps: seq<string>, keep: string -> bool): (idx: seq<nat>)
    ensures |idx| == |Filter(ps, keep)|
  {
    if ps == [] then []
    else (if keep(ps[0]) then [0] else []) + Shift(FilterIndices(ps[1..], keep))
  }

  function Shift(idx: seq<nat>): (r: seq<nat>)
    ensures |r| == |idx| && forall j :: 0 <= j < |idx| ==> r[j] == idx[j] + 1
  {
    seq(|idx|, j requires 0 <= j < |idx| => idx[j] + 1)
  }

  /** A filter keeps the elements it accepts: `Filter(ps, keep)[j]` is `ps[FilterIndices(ps, keep)[j]]`. */
  lemma {:induction false} FilterPositions(ps: seq<string>, keep: string -> bool)
    ensures forall j :: 0 <= j < |FilterIndices(ps, keep)| ==>
              FilterIndices(ps, keep)[j] < |ps| && Filter(ps, keep)[j] == ps[FilterIndices(ps, keep)[j]]
  {
    if ps != [] {
      FilterPositions(ps[1..], keep);
      var tail, rest := FilterIndices(ps[1..], keep), Filter(ps[1..], keep);
      var shifted := Shift(tail);
      forall j | 0 <= j < |tail|
        ensures shifted[j] < |ps| && rest[j] == ps[shifted[j]]
      {
        assert ps[1..][tail[j]] == ps[tail[j] + 1];
      }
      if keep(ps[0]) {
        var idx := [0] + shifted;
        assert FilterIndices(ps, keep) == idx;
        assert Filter(ps, keep) == [ps[0]] + rest;
        forall j | 0 < j < |idx|
          ensures Filter(ps, keep)[j] == ps[idx[j]]
        {
          assert Filter(ps, keep)[j] == rest[j - 1] && idx[j] == shifted[j - 1];
        }
      } else {
        assert FilterIndices(ps, keep) == shifted;
        assert Filter(ps, keep) == rest;
      }
    }
  }

  /** The kept positions are strictly increasing, so the filter keeps the order. */
  lemma {:induction false} FilterKeepsOrder(ps: seq<string>, keep: string -> bool)
    ensures Increasing(FilterIndices(ps, keep))
  {
    if ps != [] {
      var tail := FilterIndices(ps[1..], keep);
      FilterKeepsOrder(ps[1..], keep);
      var shifted := Shift(tail);
      ShiftIncreasing(tail);
      if keep(ps[0]) {
        PrependZero(shifted);
        assert FilterIndices(ps, keep) == [0] + shifted;
      } else {
        assert FilterIndices(ps, keep) == shifted;
      }
    }
  }

  /** Strictly increasing positions. */
  predicate Increasing(idx: seq<nat>) {
    forall j, k :: 0 <= j < k < |idx| ==> idx[j] < idx[k]
  }

  lemma ShiftIncreasing(idx: seq<nat>)
    requires Increasing(idx)
    ensures Increasing(Shift(idx))
  {
  }

  lemma PrependZero(idx: seq<nat>)
    requires Increasing(idx)
    requires forall j :: 0 <= j < |idx| ==> idx[j] >= 1
    ensures Increasing([0] + idx)
  {
    forall j, k | 0 <= j < k < |[0] + idx|
      ensures ([0] + idx)[j] < ([0] + idx)[k]
    {
      assert ([0] + idx)[k] == idx[k - 1];
      if j > 0 {
        assert ([0] + idx)[j] == idx[j - 1];
      }
    }
  }

  /** Every position whose element the filter accepts is among the kept positions. */
  lemma {:induction false} FilterKeepsAccepted(ps: seq<string>, keep: string -> bool, i: nat)
    requires i < |ps| && keep(ps[i])
    ensures i in FilterIndices(ps, keep)
  {
    var tail := FilterIndices(ps[1..], keep);
    var head: seq<nat> := if keep(ps[0]) then [0] else [];
    assert FilterIndices(ps, keep) == head + Shift(tail);
    if i == 0 {
      assert 0 in head;
    } else {
      assert ps[i] == ps[1..][i - 1];
      FilterKeepsAccepted(ps[1..], keep, i - 1);
      InShift(tail, i - 1);
    }
  }

  lemma InShift(idx: seq<nat>, x: nat)
    requires x in idx
    ensures x + 1 in Shift(idx)
  {
    var j :| 0 <= j < |idx| && idx[j] == x;
    assert Shift(idx)[j] == x + 1;
  }

  /** Every paragraph of the result is non-blank. */
  lemma CleanParagraphWiseNonBlank(text: string, q: string)
    requires q in NonBlank(seq(|Split(text, ParagraphBreak)|, i requires 0 <= i < |Split(text, ParagraphBreak)| =>
                                 CleanParagraph(Split(text, ParagraphBreak)[i])))
    ensures HasText(q)
  {
  }

  function SumChinese(ps: seq<string>): nat
  {
    if ps == [] then 0 else CountChinese(ps[0]) + SumChinese(ps[1..])
  }

  lemma {:induction false} CountJoin(ps: seq<string>)
    ensures CountChinese(Join(ps, ParagraphBreak)) == SumChinese(ps)
  {
    if |ps| == 1 {
      assert ps[1..] == [];
    } else if |ps| > 1 {
      CountJoin(ps[1..]);
      CountAppend(ps[0] + ParagraphBreak, Join(ps[1..], ParagraphBreak), IsChinese);
      CountAppend(ps[0], ParagraphBreak, IsChinese);
      assert CountChinese(ParagraphBreak) == 0 by {
        ScriptsAreNotWhitespace();
        WhitespaceCountsZero(ParagraphBreak, IsChinese);
      }
    }
  }

  lemma {:induction false} NonBlankSum(ps: seq<string>)
    ensures SumChinese(NonBlank(ps)) <= SumChinese(ps)
  {
    if ps != [] {
      NonBlankSum(ps[1..]);
      var head := if HasText(ps[0]) then [ps[0]] else [];
      SumAppend(head, NonBlank(ps[1..]));
      assert [ps[0]][1..] == [];
    }
  }

  lemma {:induction false} SumAppend(a: seq<string>, b: seq<string>)
    ensures SumChinese(a + b) == SumChinese(a) + SumChinese(b)
  {
    if a == [] {
      assert a + b == b;
    } else {
      assert (a + b)[1..] == a[1..] + b;
      SumAppend(a[1..], b);
    }
  }

  lemma {:induction false} CleanedSum(ps: seq<string>)
    ensures SumChinese(seq(|ps|, i requires 0 <= i < |ps| => CleanParagraph(ps[i]))) <= SumChinese(ps)
  {
    if ps != [] {
      var m := seq(|ps|, i requires 0 <= i < |ps| => CleanParagraph(ps[i]));
      CleanedSum(ps[1..]);
      assert m[1..] == seq(|ps[1..]|, i requires 0 <= i < |ps[1..]| => CleanParagraph(ps[1..][i]));
    }
  }

  /** cleanParagraphWise never adds a CJK ideograph. */
  lemma CleanParagraphWiseCount(text: string)
    ensures CountChinese(CleanParagraphWise(text)) <= CountChinese(text)
  {
    var ps := Split(text, ParagraphBreak);
    var m := seq(|ps|, i requires 0 <= i < |ps| => CleanParagraph(ps[i]));
    CountJoin(NonBlank(m));
    NonBlankSum(m);
    CleanedSum(ps);
    JoinSplit(text, ParagraphBreak);
    CountJoin(ps);
  }

  lemma {:induction false} NonBlankIdentity(ps: seq<string>)
    requires forall i :: 0 <= i < |ps| ==> HasText(ps[i])
    ensures NonBlank(ps) == ps
  {
    if ps != [] {
      NonBlankIdentity(ps[1..]);
    }
  }

  lemma {:induction false} SumZero(ps: seq<string>, i: nat)
    requires SumChinese(ps) == 0 && i < |ps|
    ensures CountChinese(ps[i]) == 0
  {
    if i > 0 {
      SumZero(ps[1..], i - 1);
    }
  }

  /** A text without CJK ideographs and without blank paragraphs comes back unchanged. */
  lemma CleanParagraphWiseIdentity(text: string)
    requires CountChinese(text) == 0
    requires forall i :: 0 <= i < |Split(text, ParagraphBreak)| ==> HasText(Split(text, ParagraphBreak)[i])
    ensures CleanParagraphWise(text) == text
  {
    var ps := Split(text, ParagraphBreak);
    var m := seq(|ps|, i requires 0 <= i < |ps| => CleanParagraph(ps[i]));
    JoinSplit(text, ParagraphBreak);
    CountJoin(ps);
    forall i | 0 <= i < |ps|
      ensures m[i] == ps[i]
    {
      SumZero(ps, i);
    }
    assert m == ps;
    NonBlankIdentity(ps);
  }

  // ---------------------------------------------------------------------------
  // clean, shouldRetry, getQualityScore
  // ---------------------------------------------------------------------------

  datatype CleaningResult = CleaningResult(cleaned: string, hasChinese: bool, chineseCharCount: nat)

  /**
   * clean: paragraph-wise cleaning followed by cleanWhitespace; the report counts the
   * CJK ideographs left in the cleaned text, never more than the input held, since the
   * paragraphs are cleaned with the corrected RemoveChinese.
   */
  function Clean(text: string): (r: CleaningResult)
    ensures r.chineseCharCount == CountChinese(r.cleaned) <= CountChinese(text)
    ensures r.hasChinese <==> exists i :: 0 <= i < |r.cleaned| && IsChinese(r.cleaned[i])
    ensures r.cleaned == [] || (!IsJsWhitespace(r.cleaned[0]) && !IsJsWhitespace(r.cleaned[|r.cleaned| - 1]))
    ensures NoBlankAtLineEnd(r.cleaned)
  {
    var cleaned := CleanWhitespace(CleanParagraphWise(text));
    CleanParagraphWiseCount(text);
    CleanWhitespaceKeepsScripts(CleanParagraphWise(text));
    var after := AnalyzeLanguageContent(cleaned);
    CleaningResult(cleaned, after.chineseCount > 0, after.chineseCount)
  }

  /**
   * shouldRetry: the CJK ideographs make up more than a tenth of the text. The
   * source compares against `totalCharCount * 0.1`; the test is made in integers.
   */
  predicate ShouldRetry(text: string)
    ensures ShouldRetry(text) <==> (CountChinese(text) as real) > (|text| as real) * 0.1
  {
    var a := AnalyzeLanguageContent(text);
    10 * a.chineseCount > a.totalCharCount
  }

  /** The retry threshold is strict: a share of exactly 10 percent does not ask for a retry. */
  lemma ShouldRetryThreshold(text: string, percent: nat)
    requires |text| > 0 && 100 * CountChinese(text) == percent * |text|
    ensures ShouldRetry(text) <==> percent > 10
  {
    var c, n := CountChinese(text), |text|;
    if percent > 10 {
      MulLe(11, percent, n);
    } else {
      MulLe(percent, 10, n);
    }
  }

  lemma MulLe(a: nat, b: nat, n: nat)
    requires a <= b
    ensures a * n <= b * n
  {
    assert b * n == a * n + (b - a) * n;
  }

  /** The warning `경고: 중국어 ${n}자 남아있음`. */
  function RemainingChineseIssue(n: nat): string { "경고: 중국어 " + NatToString(n) + "자 남아있음" }

  const LowKoreanIssue: string := "한국어 내용이 부족함"
  const TooShortIssue: string := "응답이 너무 짧음"

  /** The deduction for CJK ideographs left after cleaning: `Math.min(30, count * 2)`. */
  function ChinesePenalty(remaining: nat): (p: nat)
    ensures p <= 30 && (remaining > 0 ==> p > 0)
  {
    if 2 * remaining < 30 then 2 * remaining else 30
  }

  /**
   * getQualityScore: start from 100 and deduct for CJK left in a text whose original
   * held some, for fewer than ten Hangul code units and for fewer than fifty code
   * units; one issue per deduction.
   */
  method GetQualityScore(text: string, beforeCleaning: string) returns (score: int, issues: seq<string>)
    ensures 35 <= score <= 100
    ensures score == 100 <==> issues == []
    ensures score == 100
      - (if CountChinese(beforeCleaning) > 0 && CountChinese(text) > 0 then ChinesePenalty(CountChinese(text)) else 0)
      - (if CountKorean(text) < 10 then 20 else 0)
      - (if |text| < 50 then 15 else 0)
    ensures RemainingChineseIssue(CountChinese(text)) in issues <==> CountChinese(beforeCleaning) > 0 && CountChinese(text) > 0
    ensures LowKoreanIssue in issues <==> CountKorean(text) < 10
    ensures TooShortIssue in issues <==> |text| < 50
    ensures |issues| <= 3
    ensures issues
      == (if CountChinese(beforeCleaning) > 0 && CountChinese(text) > 0 then [RemainingChineseIssue(CountChinese(text))] else [])
      + (if CountKorean(text) < 10 then [LowKoreanIssue] else [])
      + (if |text| < 50 then [TooShortIssue] else [])
  {
    var analysis := AnalyzeLanguageContent(text);
    var beforeAnalysis := AnalyzeLanguageContent(beforeCleaning);
    issues := [];
    score := 100;
    assert RemainingChineseIssue(analysis.chineseCount)[0] == '경';
    if beforeAnalysis.chineseCount > 0 {
      if analysis.chineseCount > 0 {
        score := score - ChinesePenalty(analysis.chineseCount);
        issues := issues + [RemainingChineseIssue(analysis.chineseCount)];
      }
    }
    if analysis.koreanCount < 10 {
      score := score - 20;
      issues := issues + [LowKoreanIssue];
    }
    if |text| < 50 {
      score := score - 15;
      issues := issues + [TooShortIssue];
    }
    score := if score < 0 then 0 else score;
  }
}
