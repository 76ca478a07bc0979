/** The streaming citation emitter: what it has emitted is independent of how the text was
    chunked, exactly when no link outgrows its buffer (toolruntime/citations/stream.go). */
module CitationStream {
  import opened Seqs
  import opened CitationLink

  const MAX_LINK_BUFFER_RUNES: int := 4096

  datatype Source = Source(url: string, title: string)
  datatype Annotation = Annotation(start: nat, end: nat, source: Source)

  /** The state after a drain, with what the drain forwarded. */
  datatype Drained = Drained(text: string, flushed: nat, content: string, notes: seq<Annotation>)

  /** The annotation of a matched link, if its URL resolves to a recorded source. */
  function Note(resolve: string -> Option<Source>, o: Outcome): seq<Annotation>
    requires o.Match?
  {
    match resolve(o.url)
    case Some(s) => [Annotation(o.labelStart, o.labelEnd, s.(url := o.url))]
    case None => []
  }

  function Prepend(content: string, notes: seq<Annotation>, d: Drained): Drained {
    d.(content := content + d.content, notes := notes + d.notes)
  }

  /** drain, one link opener at a time. */
  function Drain(resolve: string -> Option<Source>, text: string, flushed: nat, final: bool): (d: Drained)
    requires flushed <= |text|
    ensures flushed <= d.flushed <= |d.text| == |text|
    decreases |text| - flushed
  {
    var o := NextOpen(text, flushed);
    if o == |text| then Drained(text, |text|, text[flushed..], [])
    else
      var m := MatchLink(text, o);
      if m.Match? then
        var text' := Normalize(text, o, m.end);
        Prepend(text[flushed..o] + text'[o..m.end], Note(resolve, m), Drain(resolve, text', m.end, final))
      else if Holds(text, o, final) then
        Drained(text, o, text[flushed..o], [])
      else
        Prepend(text[flushed..o + 1], [], Drain(resolve, text, o + 1, final))
  }

  /** Whether drain keeps the opener at o back, waiting for more text. */
  predicate Holds(text: string, o: nat, final: bool) {
    MatchLink(text, o).Incomplete? && !final && |text| - o <= MAX_LINK_BUFFER_RUNES
  }

  // The four ways a drain goes on from the next opener.

  lemma DrainRest(resolve: string -> Option<Source>, text: string, flushed: nat, final: bool)
    requires flushed <= |text| && NextOpen(text, flushed) == |text|
    ensures Drain(resolve, text, flushed, final) == Drained(text, |text|, text[flushed..], [])
  {}

  lemma DrainMatch(resolve: string -> Option<Source>, text: string, flushed: nat, final: bool)
    requires flushed <= |text| && MatchLink(text, NextOpen(text, flushed)).Match?
    ensures var o := NextOpen(text, flushed);
            var m := MatchLink(text, o);
            var text' := Normalize(text, o, m.end);
            Drain(resolve, text, flushed, final) ==
            Prepend(text[flushed..o] + text'[o..m.end], Note(resolve, m), Drain(resolve, text', m.end, final))
  {}

  lemma DrainHold(resolve: string -> Option<Source>, text: string, flushed: nat, final: bool)
    requires flushed <= |text| && NextOpen(text, flushed) < |text| && Holds(text, NextOpen(text, flushed), final)
    ensures var o := NextOpen(text, flushed);
            Drain(resolve, text, flushed, final) == Drained(text, o, text[flushed..o], [])
  {}

  lemma DrainSkip(resolve: string -> Option<Source>, text: string, flushed: nat, final: bool)
    requires flushed <= |text| && NextOpen(text, flushed) < |text|
    requires !MatchLink(text, NextOpen(text, flushed)).Match? && !Holds(text, NextOpen(text, flushed), final)
    ensures var o := NextOpen(text, flushed);
            Drain(resolve, text, flushed, final) ==
            Prepend(text[flushed..o + 1], [], Drain(resolve, text, o + 1, final))
  {}

  // ---- The reference: one left-to-right pass over the whole text ------------------

  datatype Rendered = Rendered(content: string, notes: seq<Annotation>)

  function Join(content: string, notes: seq<Annotation>, r: Rendered): Rendered {
    Rendered(content + r.content, notes + r.notes)
  }

  function Render(resolve: string -> Option<Source>, text: string, p: nat): Rendered
    requires p <= |text|
    decreases |text| - p
  {
    if p == |text| then Rendered("", [])
    else
      var m := MatchLink(text, p);
      if m.Match? then
        Join(Normalize(text, p, m.end)[p..m.end], Note(resolve, m), Render(resolve, text, m.end))
      else Join([text[p]], [], Render(resolve, text, p + 1))
  }

  /** Every link the pass finds fits the buffer plus the rune that completes it. */
  predicate LinksFit(text: string, p: nat)
    requires p <= |text|
    decreases |text| - p
  {
    if p == |text| then true
    else
      var m := MatchLink(text, p);
      if m.Match? then m.end - p <= 4097 && LinksFit(text, m.end)
      else LinksFit(text, p + 1)
  }

  // ---- Streams ---------------------------------------------------------------------

  function Push(resolve: string -> Option<Source>, text: string, flushed: nat, delta: string): Drained
    requires flushed <= |text|
  {
    if delta == "" then Drained(text, flushed, "", []) else Drain(resolve, text + delta, flushed, false)
  }

  /** All deltas pushed, then Flush. */
  function PushAll(resolve: string -> Option<Source>, text: string, flushed: nat, deltas: seq<string>): Rendered
    requires flushed <= |text|
    decreases |deltas|
  {
    if deltas == [] then
      var d := Drain(resolve, text, flushed, true);
      Rendered(d.content, d.notes)
    else
      var d := Push(resolve, text, flushed, deltas[0]);
      Join(d.content, d.notes, PushAll(resolve, d.text, d.flushed, deltas[1..]))
  }

  function Streamed(resolve: string -> Option<Source>, deltas: seq<string>): Rendered {
    PushAll(resolve, "", 0, deltas)
  }

  // ---- A drain is a stretch of the reference pass -----------------------------------

  /** Runes before the next opener render as themselves. */
  lemma {:induction false} RenderPlain(resolve: string -> Option<Source>, text: string, p: nat, o: nat)
    requires p <= o <= |text| && forall k :: p <= k < o ==> !MatchLink(text, k).Match?
    ensures Render(resolve, text, p) == Join(text[p..o], [], Render(resolve, text, o))
    ensures LinksFit(text, p) == LinksFit(text, o)
    decreases o - p
  {
    hide MatchLink, Normalize;
    if p < o {
      RenderPlain(resolve, text, p + 1, o);
      assert [text[p]] + text[p + 1..o] == text[p..o];
      JoinAssoc([text[p]], [], text[p + 1..o], [], Render(resolve, text, o));
    } else {
      var r := Render(resolve, text, o);
      assert text[p..o] == "" && "" + r.content == r.content && [] + r.notes == r.notes;
    }
  }

  lemma OpenAgrees(text: string, whole: string, i: nat)
    requires i <= |text| && Agree(text, whole, i)
    ensures forall k :: i <= k < NextOpen(text, i) ==> !IsOpen(whole[k]) && !MatchLink(whole, k).Match?
    ensures NextOpen(text, i) < |text| ==> IsOpen(whole[NextOpen(text, i)])
  {}

  lemma JoinAssoc(a: string, m: seq<Annotation>, b: string, n: seq<Annotation>, r: Rendered)
    ensures Join(a, m, Join(b, n, r)) == Join(a + b, m + n, r)
  {
    assert a + (b + r.content) == (a + b) + r.content;
    assert m + (n + r.notes) == (m + n) + r.notes;
  }

  /** What a drain forwards is the next piece of the reference, and it stops in step with it. */
  ghost predicate InStep(resolve: string -> Option<Source>, whole: string, from: nat, d: Drained) {
    from <= d.flushed <= |d.text| && Agree(d.text, whole, d.flushed) &&
    Render(resolve, whole, from) == Join(d.content, d.notes, Render(resolve, whole, d.flushed)) &&
    (LinksFit(whole, from) ==> LinksFit(whole, d.flushed))
  }

  lemma InStepAfter(resolve: string -> Option<Source>, whole: string, from: nat, mid: nat,
                    content: string, notes: seq<Annotation>, d: Drained)
    requires from <= mid <= |whole| && InStep(resolve, whole, mid, d)
    requires Render(resolve, whole, from) == Join(content, notes, Render(resolve, whole, mid))
    requires LinksFit(whole, from) ==> LinksFit(whole, mid)
    ensures InStep(resolve, whole, from, Prepend(content, notes, d))
  {
    JoinAssoc(content, notes, d.content, d.notes, Render(resolve, whole, d.flushed));
  }

  lemma {:induction false} DrainInStep(resolve: string -> Option<Source>, text: string, flushed: nat, final: bool,
                                       whole: string)
    requires flushed <= |text| && Agree(text, whole, flushed)
    requires |text| == |whole| || (LinksFit(whole, flushed) && !final)
    ensures InStep(resolve, whole, flushed, Drain(resolve, text, flushed, final))
    ensures final ==> Drain(resolve, text, flushed, final).flushed == |whole|
    decreases |text| - flushed
  {
    hide MatchLink, Normalize, NextOpen, Drain, Render, LinksFit;
    var o := NextOpen(text, flushed);
    OpenAgrees(text, whole, flushed);
    assert text[flushed..o] == whole[flushed..o];
    if o == |text| {
      RenderPlain(resolve, whole, flushed, o);
      DrainRest(resolve, text, flushed, final);
    } else if MatchLink(text, o).Match? {
      var m := MatchLink(text, o);
      MatchInStep(resolve, text, flushed, o, whole);
      DrainInStep(resolve, Normalize(text, o, m.end), m.end, final, whole);
      DrainMatch(resolve, text, flushed, final);
      InStepAfter(resolve, whole, flushed, m.end, text[flushed..o] + Normalize(text, o, m.end)[o..m.end],
                  Note(resolve, m), Drain(resolve, Normalize(text, o, m.end), m.end, final));
    } else if Holds(text, o, final) {
      RenderPlain(resolve, whole, flushed, o);
      DrainHold(resolve, text, flushed, final);
    } else {
      SkipInStep(resolve, text, flushed, o, whole);
      DrainInStep(resolve, text, o + 1, final, whole);
      DrainSkip(resolve, text, flushed, final);
      InStepAfter(resolve, whole, flushed, o + 1, text[flushed..o + 1], [], Drain(resolve, text, o + 1, final));
    }
  }

  /** A link matched in the text so far is the one the reference finds. */
  lemma MatchInStep(resolve: string -> Option<Source>, text: string, flushed: nat, o: nat, whole: string)
    requires flushed <= o < |text| && Agree(text, whole, flushed) && MatchLink(text, o).Match?
    requires forall k :: flushed <= k < o ==> !MatchLink(whole, k).Match?
    ensures var m := MatchLink(text, o);
            var text' := Normalize(text, o, m.end);
            Agree(text', whole, m.end) &&
            Render(resolve, whole, flushed) ==
            Join(text[flushed..o] + text'[o..m.end], Note(resolve, m), Render(resolve, whole, m.end)) &&
            (LinksFit(whole, flushed) ==> LinksFit(whole, m.end))
  {
    hide MatchLink, Normalize;
    var m := MatchLink(text, o);
    MatchExtends(text, whole, o);
    NormalizeLocal(text, whole, o, m.end);
    RenderPlain(resolve, whole, flushed, o);
    assert text[flushed..o] == whole[flushed..o];
    JoinAssoc(text[flushed..o], [], Normalize(text, o, m.end)[o..m.end], Note(resolve, m),
              Render(resolve, whole, m.end));
    assert [] + Note(resolve, m) == Note(resolve, m);
  }

  /** Giving up on an opener agrees with the reference: either the text is whole, or a link there
      would not have fitted. */
  lemma SkipInStep(resolve: string -> Option<Source>, text: string, flushed: nat, o: nat, whole: string)
    requires flushed <= o < |text| && Agree(text, whole, flushed)
    requires forall k :: flushed <= k < o ==> !MatchLink(whole, k).Match?
    requires !MatchLink(text, o).Match?
    requires |text| == |whole| ||
             (LinksFit(whole, flushed) && (MatchLink(text, o).Incomplete? ==> |text| - o > MAX_LINK_BUFFER_RUNES))
    ensures Render(resolve, whole, flushed) == Join(text[flushed..o + 1], [], Render(resolve, whole, o + 1))
    ensures LinksFit(whole, flushed) ==> LinksFit(whole, o + 1)
  {
    hide MatchLink, Normalize, Render;
    RenderPlain(resolve, whole, flushed, o);
    MatchExtends(text, whole, o);
    assert !MatchLink(whole, o).Match?;
    RenderPlain(resolve, whole, flushed, o + 1);
    assert text[flushed..o + 1] == whole[flushed..o + 1];
  }

  lemma ConcatAgrees(text: string, delta: string, rest: string, whole: string, from: nat)
    requires from <= |text| && |text| + |delta| + |rest| == |whole| && Agree(text, whole, from)
    requires whole[|text|..] == delta + rest
    ensures Agree(text + delta, whole, from) && whole[|text + delta|..] == rest
  {
    assert forall i :: |text| <= i < |text| + |delta| ==> whole[i] == whole[|text|..][i - |text|];
    assert whole[|text + delta|..] == whole[|text|..][|delta|..];
  }

  lemma {:induction false} PushAllRenders(resolve: string -> Option<Source>, text: string, flushed: nat,
                                          deltas: seq<string>, whole: string)
    requires flushed <= |text| && Agree(text, whole, flushed) && whole[|text|..] == Concat(deltas)
    requires |whole| == |text| + |Concat(deltas)|
    requires LinksFit(whole, flushed) || (|deltas| == 1 && deltas[0] != "") || deltas == []
    ensures PushAll(resolve, text, flushed, deltas) == Render(resolve, whole, flushed)
    decreases |deltas|
  {
    if deltas == [] {
      DrainInStep(resolve, text, flushed, true, whole);
      var d := Drain(resolve, text, flushed, true);
      assert d.content + "" == d.content && d.notes + [] == d.notes;
    } else {
      ConcatAgrees(text, deltas[0], Concat(deltas[1..]), whole, flushed);
      var d := Push(resolve, text, flushed, deltas[0]);
      if deltas[0] == "" {
        assert text + "" == text;
        var rest := PushAll(resolve, text, flushed, deltas[1..]);
        assert "" + rest.content == rest.content && [] + rest.notes == rest.notes;
      } else {
        DrainInStep(resolve, text + deltas[0], flushed, false, whole);
      }
      PushAllRenders(resolve, d.text, d.flushed, deltas[1..], whole);
    }
  }

  /** One Push of the whole text and a Flush is the reference pass. */
  lemma OneShotRenders(resolve: string -> Option<Source>, text: string)
    ensures Streamed(resolve, [text]) == Render(resolve, text, 0)
  {
    assert Concat([text]) == text + "" == text;
    if text == "" {
      assert LinksFit(text, 0);
    }
    PushAllRenders(resolve, "", 0, [text], text);
  }

  /** However the text is chunked, the forwarded content and annotations are those of the
      reference pass, provided every link fits the buffer. */
  lemma ChunkingIsInvisible(resolve: string -> Option<Source>, deltas: seq<string>)
    requires LinksFit(Concat(deltas), 0)
    ensures Streamed(resolve, deltas) == Streamed(resolve, [Concat(deltas)])
  {
    PushAllRenders(resolve, "", 0, deltas, Concat(deltas));
    OneShotRenders(resolve, Concat(deltas));
  }

  /** In particular when no complete link anywhere in the text spans more than 4097 runes. */
  lemma {:induction false} ShortLinksFit(text: string, p: nat)
    requires p <= |text|
    requires forall o: nat :: MatchLink(text, o).Match? ==> MatchLink(text, o).end - o <= 4097
    ensures LinksFit(text, p)
    decreases |text| - p
  {
    hide MatchLink;
    if p < |text| {
      var m := MatchLink(text, p);
      ShortLinksFit(text, if m.Match? then m.end else p + 1);
    }
  }

  // ---- What the client reads ------------------------------------------------------------

  /** A drain forwards its stretch of the text with only fullwidth brackets softened, and leaves the
      rest untouched. */
  lemma {:induction false} DrainSoftens(resolve: string -> Option<Source>, text: string, flushed: nat, final: bool)
    requires flushed <= |text|
    ensures var d := Drain(resolve, text, flushed, final);
            Softens(d.content, text[flushed..d.flushed]) && d.text[d.flushed..] == text[d.flushed..] &&
            (final ==> d.flushed == |text|)
    decreases |text| - flushed
  {
    hide MatchLink, Normalize, NextOpen, Drain, Softens;
    var o := NextOpen(text, flushed);
    if o == |text| {
      DrainRest(resolve, text, flushed, final);
      SoftensSame(text[flushed..]);
      assert text[flushed..|text|] == text[flushed..];
    } else if MatchLink(text, o).Match? {
      var m := MatchLink(text, o);
      var text' := Normalize(text, o, m.end);
      var d := Drain(resolve, text', m.end, final);
      DrainSoftens(resolve, text', m.end, final);
      DrainMatch(resolve, text, flushed, final);
      NormalizeSoftens(text, o, m.end);
      SoftensThree(text, text', flushed, o, m.end, d.flushed, d.content);
    } else if Holds(text, o, final) {
      DrainHold(resolve, text, flushed, final);
      SoftensSame(text[flushed..o]);
    } else {
      var d := Drain(resolve, text, o + 1, final);
      DrainSoftens(resolve, text, o + 1, final);
      DrainSkip(resolve, text, flushed, final);
      SoftensSame(text[flushed..o + 1]);
      SoftensConcat(text[flushed..o + 1], text[flushed..o + 1], d.content, text[o + 1..d.flushed]);
      assert text[flushed..o + 1] + text[o + 1..d.flushed] == text[flushed..d.flushed];
    }
  }

  /** Plain text, a softened link and what follows make one softened stretch. */
  lemma SoftensThree(text: string, text': string, flushed: nat, o: nat, end: nat, upTo: nat, rest: string)
    requires flushed <= o <= end <= upTo <= |text| == |text'| && text'[end..] == text[end..]
    requires Softens(text'[o..end], text[o..end]) && Softens(rest, text'[end..upTo])
    ensures Softens(text[flushed..o] + text'[o..end] + rest, text[flushed..upTo]) && text'[upTo..] == text[upTo..]
  {
    hide Softens;
    SoftensSame(text[flushed..o]);
    SoftensConcat(text[flushed..o], text[flushed..o], text'[o..end], text[o..end]);
    assert text'[end..upTo] == text'[end..][..upTo - end] == text[end..upTo];
    SoftensConcat(text[flushed..o] + text'[o..end], text[flushed..o] + text[o..end], rest, text[end..upTo]);
    assert text[flushed..o] + text[o..end] + text[end..upTo] == text[flushed..upTo];
    assert text'[upTo..] == text'[end..][upTo - end..] == text[upTo..];
  }

  lemma SoftensSame(text: string)
    ensures Softens(text, text)
  {}

  lemma {:induction false} PushAllSoftens(resolve: string -> Option<Source>, text: string, flushed: nat, deltas: seq<string>)
    requires flushed <= |text|
    ensures Softens(PushAll(resolve, text, flushed, deltas).content, text[flushed..] + Concat(deltas))
    decreases |deltas|
  {
    hide Drain, Softens;
    if deltas == [] {
      DrainSoftens(resolve, text, flushed, true);
      assert text[flushed..|text|] == text[flushed..] + [];
    } else {
      var delta, grown := deltas[0], text + deltas[0];
      var d := Push(resolve, text, flushed, delta);
      var rest := PushAll(resolve, d.text, d.flushed, deltas[1..]);
      PushAllSoftens(resolve, d.text, d.flushed, deltas[1..]);
      assert Softens(d.content, grown[flushed..d.flushed]) && d.text[d.flushed..] == grown[d.flushed..] by {
        if delta == "" {
          SoftensSame("");
          assert grown == text && grown[flushed..flushed] == "";
        } else {
          DrainSoftens(resolve, grown, flushed, false);
        }
      }
      SoftensConcat(d.content, grown[flushed..d.flushed], rest.content, d.text[d.flushed..] + Concat(deltas[1..]));
      assert grown[flushed..d.flushed] + (grown[d.flushed..] + Concat(deltas[1..])) == text[flushed..] + (delta + Concat(deltas[1..]));
    }
  }

  /** However a text is chunked, the client reads exactly that text, except that fullwidth brackets may
      have turned ASCII; a text without any is forwarded unchanged. */
  lemma ContentIsTheText(resolve: string -> Option<Source>, deltas: seq<string>)
    ensures Softens(Streamed(resolve, deltas).content, Concat(deltas))
    ensures OPEN_WIDE !in Concat(deltas) && CLOSE_WIDE !in Concat(deltas) ==>
            Streamed(resolve, deltas).content == Concat(deltas)
  {
    PushAllSoftens(resolve, "", 0, deltas);
    assert ""[0..] + Concat(deltas) == Concat(deltas);
  }

  /** a is the annotation of a resolved link at p: its label's span, its own URL and the title found. */
  ghost predicate AnnotatesLink(resolve: string -> Option<Source>, text: string, p: nat, a: Annotation) {
    exists labelEnd: nat, end: nat ::
      IsLink(text, p, labelEnd, end) && a.start == p + 1 && a.end == labelEnd &&
      a.source.url == text[labelEnd + 2..end - 1] &&
      resolve(a.source.url).Some? && a.source.title == resolve(a.source.url).value.title
  }

  lemma NoteAnnotates(resolve: string -> Option<Source>, text: string, p: nat, a: Annotation)
    ensures AnnotatesLink(resolve, text, p, a) <==> MatchLink(text, p).Match? && a in Note(resolve, MatchLink(text, p))
  {
    hide MatchLink;
    if MatchLink(text, p).Match? {
      var m := MatchLink(text, p);
      MatchSpans(text, p);
      MatchIsLink(text, p, m.labelEnd, m.end);
    }
    if AnnotatesLink(resolve, text, p, a) {
      var labelEnd: nat, end: nat :|
        IsLink(text, p, labelEnd, end) && a.start == p + 1 && a.end == labelEnd &&
        a.source.url == text[labelEnd + 2..end - 1] &&
        resolve(a.source.url).Some? && a.source.title == resolve(a.source.url).value.title;
      MatchIsLink(text, p, labelEnd, end);
    }
  }

  lemma MatchSpans(text: string, p: nat)
    requires MatchLink(text, p).Match?
    ensures var m := MatchLink(text, p);
            m.labelEnd + 2 < m.end <= |text| && m == Match(m.end, p + 1, m.labelEnd, text[m.labelEnd + 2..m.end - 1])
  {}

  /** The annotations are exactly those of the resolved links the pass comes by. */
  lemma {:induction false} NotesAreLinks(resolve: string -> Option<Source>, text: string, f: nat, a: Annotation)
    requires f <= |text|
    ensures a in Render(resolve, text, f).notes <==>
            exists p: nat :: p < |text| && Visits(text, f, p) && AnnotatesLink(resolve, text, p, a)
    decreases |text| - f
  {
    hide MatchLink, AnnotatesLink, Normalize, Note;
    if f < |text| {
      var m := MatchLink(text, f);
      var next := if m.Match? then m.end else f + 1;
      NotesAreLinks(resolve, text, next, a);
      NoteAnnotates(resolve, text, f, a);
      forall p: nat | p < |text| ensures Visits(text, f, p) <==> p == f || Visits(text, next, p) {
        if Visits(text, next, p) { VisitsBound(text, next, p); }
      }
      assert a in Render(resolve, text, f).notes <==> (m.Match? && a in Note(resolve, m)) || a in Render(resolve, text, next).notes;
      assert Visits(text, f, f);
    } else {
      forall p: nat | p < |text| ensures !Visits(text, f, p) {}
    }
  }

  // ---- The bound is exact --------------------------------------------------------------

  /** Annotations of a drain start past the runes already flushed. */
  ghost predicate NotesPast(notes: seq<Annotation>, p: nat) {
    forall a :: a in notes ==> a.start > p
  }

  lemma {:induction false} DrainNotesPast(resolve: string -> Option<Source>, text: string, flushed: nat, final: bool)
    requires flushed <= |text|
    ensures NotesPast(Drain(resolve, text, flushed, final).notes, flushed)
    decreases |text| - flushed
  {
    hide MatchLink, Normalize, NextOpen, Drain;
    var o := NextOpen(text, flushed);
    if o == |text| {
      DrainRest(resolve, text, flushed, final);
    } else if MatchLink(text, o).Match? {
      DrainNotesPast(resolve, Normalize(text, o, MatchLink(text, o).end), MatchLink(text, o).end, final);
      DrainMatch(resolve, text, flushed, final);
    } else if Holds(text, o, final) {
      DrainHold(resolve, text, flushed, final);
    } else {
      DrainNotesPast(resolve, text, o + 1, final);
      DrainSkip(resolve, text, flushed, final);
    }
  }

  /** A rune that opens nothing only adds itself to the content. */
  lemma DrainPlainRune(resolve: string -> Option<Source>, text: string, f: nat, final: bool)
    requires f < |text| && !IsOpen(text[f])
    ensures var d, d' := Drain(resolve, text, f, final), Drain(resolve, text, f + 1, final);
            d.notes == d'.notes && d.flushed == d'.flushed && d.text == d'.text
  {
    hide MatchLink, Normalize;
    assert NextOpen(text, f) == NextOpen(text, f + 1);
  }

  /** p is a position the reference pass visits from f. */
  ghost predicate Visits(text: string, f: nat, p: nat)
    requires f <= |text|
    decreases |text| - f
  {
    f == p ||
    (f < |text| && f < p &&
     var m := MatchLink(text, f);
     if m.Match? then Visits(text, m.end, p) else Visits(text, f + 1, p))
  }

  /** Cut one rune short of a link's end, a link longer than the bound loses its opener. */
  lemma {:induction false} CutLinkIsLost(resolve: string -> Option<Source>, whole: string, text: string, f: nat, p: nat)
    requires f <= p < |whole| && Visits(whole, f, p) && MatchLink(whole, p).Match?
    requires MatchLink(whole, p).end - p > MAX_LINK_BUFFER_RUNES + 1
    requires |text| == MatchLink(whole, p).end - 1 && Agree(text, whole, f)
    ensures var d := Drain(resolve, text, f, false);
            d.flushed > p && forall a :: a in d.notes ==> a.start != p + 1
    decreases |whole| - f
  {
    hide MatchLink, Normalize, Drain;
    MatchExtends(text, whole, f);
    var w := MatchLink(whole, f);
    if f == p {
      MatchOpens(whole, f);
      DrainSkip(resolve, text, f, false);
      DrainNotesPast(resolve, text, p + 1, false);
    } else if w.Match? {
      VisitsBound(whole, w.end, p);
      MatchOpens(whole, f);
      NormalizeLocal(text, whole, f, w.end);
      CutLinkIsLost(resolve, whole, Normalize(text, f, w.end), w.end, p);
      DrainMatch(resolve, text, f, false);
    } else {
      CutLinkIsLost(resolve, whole, text, f + 1, p);
      if IsOpen(text[f]) {
        DrainSkip(resolve, text, f, false);
      } else {
        DrainPlainRune(resolve, text, f, false);
      }
    }
  }

  lemma MatchOpens(text: string, f: nat)
    requires MatchLink(text, f).Match?
    ensures f < |text| && IsOpen(text[f])
  {}

  lemma VisitsBound(text: string, f: nat, p: nat)
    requires f <= |text| && Visits(text, f, p)
    ensures f <= p
  {}

  lemma {:induction false} RenderHasNote(resolve: string -> Option<Source>, text: string, f: nat, p: nat)
    requires f <= p < |text| && Visits(text, f, p) && MatchLink(text, p).Match?
    requires resolve(MatchLink(text, p).url).Some?
    ensures exists a :: a in Render(resolve, text, f).notes && a.start == p + 1
    decreases |text| - f
  {
    var m := MatchLink(text, f);
    if f == p {
      assert Note(resolve, m)[0].start == p + 1;
      assert Note(resolve, m)[0] in Render(resolve, text, f).notes;
    } else {
      var next := if m.Match? then m.end else f + 1;
      VisitsBound(text, next, p);
      RenderHasNote(resolve, text, next, p);
      var a :| a in Render(resolve, text, next).notes && a.start == p + 1;
      assert a in Render(resolve, text, f).notes;
    }
  }

  lemma {:induction false} FindLongLink(text: string, f: nat) returns (p: nat)
    requires f <= |text| && !LinksFit(text, f)
    ensures f <= p < |text| && Visits(text, f, p) && MatchLink(text, p).Match?
    ensures MatchLink(text, p).end - p > MAX_LINK_BUFFER_RUNES + 1
    decreases |text| - f
  {
    var m := MatchLink(text, f);
    if m.Match? {
      if m.end - f > MAX_LINK_BUFFER_RUNES + 1 {
        p := f;
      } else {
        p := FindLongLink(text, m.end);
      }
    } else {
      p := FindLongLink(text, f + 1);
    }
  }

  /** A text with an over-long link can be cut so that its annotation is lost. */
  lemma OverlongLinkIsVisible(resolve: string -> Option<Source>, text: string) returns (deltas: seq<string>)
    requires !LinksFit(text, 0) && forall url :: resolve(url).Some?
    ensures Concat(deltas) == text && Streamed(resolve, deltas) != Streamed(resolve, [text])
  {
    hide MatchLink, Drain, Render;
    var p := FindLongLink(text, 0);
    var cut := MatchLink(text, p).end - 1;
    var a, b := text[..cut], text[cut..];
    deltas := [a, b];
    assert Concat([b]) == b + "" == b && Concat(deltas) == a + Concat(deltas[1..]) && deltas[1..] == [b];
    CutLinkIsLost(resolve, text, a, 0, p);
    OneShotRenders(resolve, text);
    RenderHasNote(resolve, text, 0, p);
    TwoPushes(resolve, a, b);
    var d := Drain(resolve, a, 0, false);
    var d' := Push(resolve, d.text, d.flushed, b);
    DrainNotesPast(resolve, d.text + b, d.flushed, false);
    DrainNotesPast(resolve, d'.text, d'.flushed, true);
    var rest := d'.notes + Drain(resolve, d'.text, d'.flushed, true).notes;
    assert forall x :: x in d.notes + rest ==> x.start != p + 1;
  }

  lemma TwoPushes(resolve: string -> Option<Source>, a: string, b: string)
    requires a != "" && b != ""
    ensures var d := Drain(resolve, a, 0, false);
            var d' := Drain(resolve, d.text + b, d.flushed, false);
            Streamed(resolve, [a, b]).notes == d.notes + (d'.notes + Drain(resolve, d'.text, d'.flushed, true).notes)
  {
    hide Drain;
    assert "" + a == a && [a, b][1..] == [b] && [b][1..] == [];
    var d := Drain(resolve, a, 0, false);
    var d' := Drain(resolve, d.text + b, d.flushed, false);
    assert PushAll(resolve, d.text, d.flushed, [b]) ==
           Join(d'.content, d'.notes, PushAll(resolve, d'.text, d'.flushed, []));
  }

  ghost predicate ChunkingInvariant(text: string) {
    forall resolve: string -> Option<Source>, deltas: seq<string> ::
      Concat(deltas) == text ==> Streamed(resolve, deltas) == Streamed(resolve, [text])
  }

  /** Chunking never shows, whatever the sources, exactly when every link the pass finds spans
      at most 4097 runes. */
  lemma ChunkingExactly(text: string)
    ensures ChunkingInvariant(text) <==> LinksFit(text, 0)
  {
    if LinksFit(text, 0) {
      forall resolve: string -> Option<Source>, deltas: seq<string> | Concat(deltas) == text
        ensures Streamed(resolve, deltas) == Streamed(resolve, [text])
      {
        ChunkingIsInvisible(resolve, deltas);
      }
    } else {
      var all := (url: string) => Some(Source(url, ""));
      var deltas := OverlongLinkIsVisible(all, text);
    }
  }
}
