/** Markdown-link matching and bracket normalization over runes
    (toolruntime/citations/stream.go). */
module CitationLink {

  const OPEN_WIDE: char := '\U{3010}'
  const CLOSE_WIDE: char := '\U{3011}'

  datatype Outcome = Match(end: nat, labelStart: nat, labelEnd: nat, url: string) | Incomplete | Invalid

  predicate IsOpen(c: char) { c == '[' || c == OPEN_WIDE }
  predicate IsClose(c: char) { c == ']' || c == CLOSE_WIDE }
  predicate IsSpace(c: char) { c == ' ' || c == '\t' || c == '\n' || c == '\r' || c == '\U{c}' || c == '\U{b}' }
  predicate IsSupportedURL(url: string) { "http://" <= url || "https://" <= url }

  /** The first index from i on that holds a closing bracket, or |text|. */
  function NextClose(text: string, i: nat): (j: nat)
    requires i <= |text|
    ensures i <= j <= |text|
    ensures forall k :: i <= k < j ==> !IsClose(text[k])
    ensures j < |text| ==> IsClose(text[j])
    decreases |text| - i
  {
    if i == |text| || IsClose(text[i]) then i else NextClose(text, i + 1)
  }

  /** The first index from i on that ends a URL, by ')' or by a space, or |text|. */
  function NextUrlEnd(text: string, i: nat): (j: nat)
    requires i <= |text|
    ensures i <= j <= |text|
    ensures forall k :: i <= k < j ==> text[k] != ')' && !IsSpace(text[k])
    ensures j < |text| ==> text[j] == ')' || IsSpace(text[j])
    decreases |text| - i
  {
    if i == |text| || text[i] == ')' || IsSpace(text[i]) then i else NextUrlEnd(text, i + 1)
  }

  /** The first opening bracket from i on, or |text|. */
  function NextOpen(text: string, i: nat): (j: nat)
    requires i <= |text|
    ensures i <= j <= |text|
    ensures forall k :: i <= k < j ==> !IsOpen(text[k])
    ensures j < |text| ==> IsOpen(text[j])
    decreases |text| - i
  {
    if i == |text| || IsOpen(text[i]) then i else NextOpen(text, i + 1)
  }

  function MatchLink(text: string, start: nat): (o: Outcome)
    ensures o.Match? ==> start + 1 == o.labelStart < o.labelEnd && o.labelEnd + 1 < o.end <= |text|
  {
    if start >= |text| then Incomplete
    else if !IsOpen(text[start]) then Invalid
    else
      var le := NextClose(text, start + 1);
      if le == |text| then Incomplete
      else if le == start + 1 then Invalid
      else if le + 1 == |text| then Incomplete
      else if text[le + 1] != '(' then Invalid
      else
        var ue := NextUrlEnd(text, le + 2);
        if ue == |text| then Incomplete
        else if text[ue] != ')' then Invalid
        else if !IsSupportedURL(text[le + 2..ue]) then Invalid
        else Match(ue + 1, start + 1, le, text[le + 2..ue])
  }

  /** text[start..end] is [label](url): label non-empty and without closing brackets, url of a
      supported scheme and without spaces or closing parentheses; either kind of bracket will do. */
  ghost predicate IsLink(text: string, start: nat, labelEnd: nat, end: nat) {
    start + 1 < labelEnd && labelEnd + 2 < end <= |text| &&
    text[start] in {'[', '\U{3010}'} && text[labelEnd] in {']', '\U{3011}'} &&
    text[labelEnd + 1] == '(' && text[end - 1] == ')' &&
    (forall k :: start < k < labelEnd ==> text[k] !in {']', '\U{3011}'}) &&
    (forall k :: labelEnd + 2 <= k < end - 1 ==> text[k] !in {')', ' ', '\t', '\n', '\r', '\U{b}', '\U{c}'}) &&
    ("http://" <= text[labelEnd + 2..end - 1] || "https://" <= text[labelEnd + 2..end - 1])
  }

  /** The matcher finds exactly the links of that grammar. */
  lemma MatchIsLink(text: string, start: nat, labelEnd: nat, end: nat)
    ensures IsLink(text, start, labelEnd, end) <==>
            labelEnd + 2 < end <= |text| &&
            MatchLink(text, start) == Match(end, start + 1, labelEnd, text[labelEnd + 2..end - 1])
  {
    if IsLink(text, start, labelEnd, end) {
      assert NextClose(text, start + 1) == labelEnd;
      assert NextUrlEnd(text, labelEnd + 2) == end - 1;
    }
  }

  /** le closes a non-empty label opened at start. */
  ghost predicate ClosesLabel(text: string, start: nat, le: nat) {
    start + 1 < le < |text| && IsClose(text[le]) && forall k :: start < k < le ==> !IsClose(text[k])
  }

  /** The matcher waits exactly at the end of the text, in an unfinished label, right after a label,
      and in an unfinished URL. */
  lemma IncompleteExactly(text: string, start: nat)
    ensures MatchLink(text, start).Incomplete? <==>
            start >= |text| ||
            (IsOpen(text[start]) &&
             ((forall k :: start < k < |text| ==> !IsClose(text[k])) ||
              exists le: nat :: ClosesLabel(text, start, le) &&
                (le + 1 == |text| ||
                 (text[le + 1] == '(' && forall k :: le + 2 <= k < |text| ==> text[k] != ')' && !IsSpace(text[k])))))
  {
    if start < |text| && IsOpen(text[start]) {
      var le := NextClose(text, start + 1);
      if le < |text| && le > start + 1 {
        assert ClosesLabel(text, start, le);
        forall other: nat | ClosesLabel(text, start, other) ensures other == le {}
      }
    }
  }

  /** MatchMarkdownLink with its two index loops. */
  method MatchMarkdownLink(text: string, start: nat) returns (o: Outcome)
    ensures o == MatchLink(text, start)
  {
    hide IsSupportedURL;
    if start >= |text| { return Incomplete; }
    if !IsOpen(text[start]) { return Invalid; }
    var labelEnd := start + 1;
    while labelEnd < |text| && !IsClose(text[labelEnd])
      invariant start + 1 <= labelEnd <= |text|
      invariant NextClose(text, start + 1) == NextClose(text, labelEnd)
    {
      labelEnd := labelEnd + 1;
    }
    if labelEnd == |text| { return Incomplete; }
    if labelEnd == start + 1 { return Invalid; }
    if labelEnd + 1 >= |text| { return Incomplete; }
    if text[labelEnd + 1] != '(' { return Invalid; }
    var urlEnd := labelEnd + 2;
    while urlEnd < |text| && text[urlEnd] != ')'
      invariant labelEnd + 2 <= urlEnd <= |text|
      invariant NextUrlEnd(text, labelEnd + 2) == NextUrlEnd(text, urlEnd)
    {
      if IsSpace(text[urlEnd]) { return Invalid; }
      urlEnd := urlEnd + 1;
    }
    if urlEnd == |text| { return Incomplete; }
    var url := text[labelEnd + 2..urlEnd];
    if !IsSupportedURL(url) { return Invalid; }
    o := Match(urlEnd + 1, start + 1, labelEnd, url);
  }

  // ---- What later text can change ---------------------------------------------

  /** text is a prefix of whole, as far as the runes from `from` on are concerned. */
  ghost predicate Agree(text: string, whole: string, from: nat) {
    |text| <= |whole| && forall i :: from <= i < |text| ==> text[i] == whole[i]
  }

  lemma CloseAgrees(text: string, whole: string, i: nat)
    requires i <= |text| && Agree(text, whole, i)
    ensures NextClose(text, i) == NextClose(whole, i) || (NextClose(text, i) == |text| <= NextClose(whole, i))
  {}

  lemma UrlEndAgrees(text: string, whole: string, i: nat)
    requires i <= |text| && Agree(text, whole, i)
    ensures NextUrlEnd(text, i) == NextUrlEnd(whole, i) || (NextUrlEnd(text, i) == |text| <= NextUrlEnd(whole, i))
  {}

  /** A match or a refusal on a prefix is final; an incomplete link can only complete beyond it. */
  lemma MatchExtends(text: string, whole: string, start: nat)
    requires start < |text| && Agree(text, whole, start)
    ensures var o, w := MatchLink(text, start), MatchLink(whole, start);
            (o.Incomplete? ==> (w.Match? ==> |text| < w.end)) &&
            (!o.Incomplete? ==> o == w)
  {
    hide NextClose, NextUrlEnd, IsSupportedURL;
    if IsOpen(text[start]) {
      CloseAgrees(text, whole, start + 1);
      var le := NextClose(text, start + 1);
      if le + 1 < |text| && text[le + 1] == '(' {
        UrlEndAgrees(text, whole, le + 2);
        var ue := NextUrlEnd(text, le + 2);
        if ue < |text| {
          assert text[le + 2..ue] == whole[le + 2..ue];
        }
      }
    }
  }

  // ---- Bracket normalization ------------------------------------------------------

  /** The first fullwidth closing bracket of text[i..end], or end. */
  function NextWideClose(text: string, i: nat, end: nat): (j: nat)
    requires i <= end <= |text|
    ensures i <= j <= end
    ensures forall k :: i <= k < j ==> text[k] != CLOSE_WIDE
    ensures j < end ==> text[j] == CLOSE_WIDE
    decreases end - i
  {
    if i == end || text[i] == CLOSE_WIDE then i else NextWideClose(text, i + 1, end)
  }

  function Normalize(text: string, start: nat, end: nat): (r: string)
    requires start < end <= |text|
    ensures |r| == |text| && r[..start] == text[..start] && r[end..] == text[end..]
  {
    var ascii := if text[start] == OPEN_WIDE then text[start := '['] else text;
    var j := NextWideClose(text, start + 1, end);
    if j < end then ascii[j := ']'] else ascii
  }

  /** NormalizeLinkBrackets: the opener, then the first fullwidth closer of the span. */
  method NormalizeLinkBrackets(text: string, start: nat, end: nat) returns (r: string)
    requires start < end <= |text|
    ensures r == Normalize(text, start, end)
  {
    r := text;
    if r[start] == OPEN_WIDE { r := r[start := '[']; }
    var i := start + 1;
    while i < end
      invariant start < i <= end && |r| == |text|
      invariant r == if text[start] == OPEN_WIDE then text[start := '['] else text
      invariant NextWideClose(text, start + 1, end) == NextWideClose(text, i, end)
    {
      if r[i] == CLOSE_WIDE {
        r := r[i := ']'];
        return;
      }
      i := i + 1;
    }
  }

  /** What one rune of the text becomes: the opener and the first fullwidth closer after it turn ASCII,
      everything else stays. */
  lemma NormalizeRunes(text: string, start: nat, end: nat, i: nat)
    requires start < end <= |text| && i < |text|
    ensures Normalize(text, start, end)[i] ==
            if i == start && text[i] == OPEN_WIDE then '['
            else if start < i < end && text[i] == CLOSE_WIDE && (forall k :: start < k < i ==> text[k] != CLOSE_WIDE) then ']'
            else text[i]
  {
    var j := NextWideClose(text, start + 1, end);
    assert i < j && i > start ==> text[i] != CLOSE_WIDE;
    assert j < i < end ==> text[j] == CLOSE_WIDE;
  }

  /** out is text with some fullwidth brackets turned ASCII, and nothing else changed. */
  ghost predicate Softens(out: string, text: string) {
    |out| == |text| &&
    forall i :: 0 <= i < |text| ==>
      out[i] == text[i] || (text[i] == OPEN_WIDE && out[i] == '[') || (text[i] == CLOSE_WIDE && out[i] == ']')
  }

  lemma NormalizeSoftens(text: string, start: nat, end: nat)
    requires start < end <= |text|
    ensures Softens(Normalize(text, start, end)[start..end], text[start..end])
  {
    var r := Normalize(text, start, end);
    forall i | 0 <= i < end - start
      ensures r[start..end][i] == text[start..end][i] || (text[start..end][i] == OPEN_WIDE && r[start..end][i] == '[') ||
              (text[start..end][i] == CLOSE_WIDE && r[start..end][i] == ']')
    {
      NormalizeRunes(text, start, end, start + i);
    }
  }

  lemma SoftensConcat(a: string, s: string, b: string, t: string)
    requires Softens(a, s) && Softens(b, t)
    ensures Softens(a + b, s + t)
  {}

  /** Normalizing a matched link leaves [label]( in the text. */
  lemma NormalizedLink(text: string, start: nat)
    requires MatchLink(text, start).Match?
    ensures var o := MatchLink(text, start);
            var r := Normalize(text, start, o.end);
            r[start] == '[' && r[o.labelEnd] == ']' && r[o.labelEnd + 1] == '('
  {
    var o := MatchLink(text, start);
    var j := NextWideClose(text, start + 1, o.end);
    assert IsClose(text[o.labelEnd]);
    assert j != o.labelEnd + 1;
    assert forall k :: start < k < o.labelEnd ==> !IsClose(text[k]);
    assert text[o.labelEnd] == CLOSE_WIDE ==> j == o.labelEnd;
  }

  /** Normalization of a span reads nothing outside it. */
  lemma NormalizeLocal(text: string, whole: string, start: nat, end: nat)
    requires start < end <= |text| && Agree(text, whole, start)
    ensures Normalize(text, start, end)[start..end] == Normalize(whole, start, end)[start..end]
    ensures Agree(Normalize(text, start, end), whole, end)
  {
    assert NextWideClose(text, start + 1, end) == NextWideClose(whole, start + 1, end);
    assert forall i :: end <= i < |text| ==> Normalize(text, start, end)[i] == text[i];
  }
}
