/** The Emitter object and what every Push and Flush conserves, with or without Harmony
    rewriting (toolruntime/citations/stream.go). */
module CitationEmitter {
  import opened Seqs
  import opened CitationLink
  import opened CitationStream

  /** resolveHarmonyTokens rewrites the unflushed suffix; rewrite is the identity with Harmony off. */
  function Resolved(rewrite: string -> string, text: string, flushed: nat): (r: string)
    requires flushed <= |text|
    ensures flushed <= |r| && r[..flushed] == text[..flushed]
    ensures flushed < |text| ==> r[flushed..] == rewrite(text[flushed..])
  {
    if flushed == |text| then text else text[..flushed] + rewrite(text[flushed..])
  }

  // ---- Conservation ----------------------------------------------------------------

  /** The span is a label between [ and ]( in the emitted text. */
  predicate SpanOk(emitted: string, a: Annotation) {
    1 <= a.start < a.end && a.end + 1 < |emitted| &&
    emitted[a.start - 1] == '[' && emitted[a.end] == ']' && emitted[a.end + 1] == '('
  }

  /** Everything emitted so far is the flushed text; spans are labels, increasing and disjoint. */
  ghost predicate Conserved(text: string, flushed: nat, emitted: string, notes: seq<Annotation>) {
    flushed <= |text| && emitted == text[..flushed] &&
    (forall i :: 0 <= i < |notes| ==> SpanOk(emitted, notes[i])) &&
    (forall i, j :: 0 <= i < j < |notes| ==> notes[i].end < notes[j].start)
  }

  /** What a non-final drain may keep back: a still-incomplete opener and at most 4096 runes. */
  ghost predicate Waiting(text: string, flushed: nat) {
    flushed <= |text| &&
    (flushed < |text| ==>
      IsOpen(text[flushed]) && MatchLink(text, flushed).Incomplete? && |text| - flushed <= MAX_LINK_BUFFER_RUNES)
  }

  lemma MatchConserves(resolve: string -> Option<Source>, text: string, flushed: nat, o: nat, emitted: string,
                       notes: seq<Annotation>)
    requires Conserved(text, flushed, emitted, notes) && flushed <= o < |text| && MatchLink(text, o).Match?
    ensures var m := MatchLink(text, o);
            var text' := Normalize(text, o, m.end);
            Conserved(text', m.end, emitted + (text[flushed..o] + text'[o..m.end]), notes + Note(resolve, m))
  {
    hide MatchLink, Normalize;
    var m := MatchLink(text, o);
    var text' := Normalize(text, o, m.end);
    var emitted' := emitted + (text[flushed..o] + text'[o..m.end]);
    NormalizedLink(text, o);
    assert text[..o] == text'[..o] && text'[..m.end] == text'[..o] + text'[o..m.end];
    assert text[..o] == text[..flushed] + text[flushed..o];
    assert emitted' == text'[..m.end];
    assert forall i :: 0 <= i < |emitted| ==> emitted'[i] == emitted[i];
    assert forall a :: a in Note(resolve, m) ==> SpanOk(emitted', a) && a.start == o + 1;
    var notes' := notes + Note(resolve, m);
    forall i | 0 <= i < |notes'| ensures SpanOk(emitted', notes'[i]) {
      assert i < |notes| ==> notes'[i] == notes[i] && SpanOk(emitted, notes[i]);
      assert i >= |notes| ==> notes'[i] in Note(resolve, m);
    }
  }

  lemma PlainConserves(text: string, flushed: nat, o: nat, emitted: string, notes: seq<Annotation>)
    requires Conserved(text, flushed, emitted, notes) && flushed <= o <= |text|
    ensures Conserved(text, o, emitted + text[flushed..o], notes)
  {
    assert text[..o] == text[..flushed] + text[flushed..o];
    assert forall i :: 0 <= i < |emitted| ==> (emitted + text[flushed..o])[i] == emitted[i];
  }

  lemma Regroup(emitted: string, notes: seq<Annotation>, content: string, more: seq<Annotation>, d: Drained)
    ensures var p := Prepend(content, more, d);
            emitted + p.content == (emitted + content) + d.content && notes + p.notes == (notes + more) + d.notes &&
            p.text == d.text && p.flushed == d.flushed
  {}

  /** Conservation survives every drain, from any state in which it holds. */
  lemma {:induction false} DrainConserves(resolve: string -> Option<Source>, text: string, flushed: nat, final: bool,
                                          emitted: string, notes: seq<Annotation>)
    requires Conserved(text, flushed, emitted, notes)
    ensures var d := Drain(resolve, text, flushed, final);
            Conserved(d.text, d.flushed, emitted + d.content, notes + d.notes) &&
            (if final then d.flushed == |d.text| else Waiting(d.text, d.flushed))
    decreases |text| - flushed
  {
    hide MatchLink, Normalize, NextOpen, Drain;
    var o := NextOpen(text, flushed);
    assert notes + [] == notes;
    if o == |text| {
      PlainConserves(text, flushed, o, emitted, notes);
      DrainRest(resolve, text, flushed, final);
      assert text[flushed..] == text[flushed..o];
    } else if MatchLink(text, o).Match? {
      var m := MatchLink(text, o);
      var text' := Normalize(text, o, m.end);
      var content := text[flushed..o] + text'[o..m.end];
      MatchConserves(resolve, text, flushed, o, emitted, notes);
      DrainConserves(resolve, text', m.end, final, emitted + content, notes + Note(resolve, m));
      DrainMatch(resolve, text, flushed, final);
      Regroup(emitted, notes, content, Note(resolve, m), Drain(resolve, text', m.end, final));
    } else if Holds(text, o, final) {
      PlainConserves(text, flushed, o, emitted, notes);
      DrainHold(resolve, text, flushed, final);
    } else {
      PlainConserves(text, flushed, o + 1, emitted, notes);
      DrainConserves(resolve, text, o + 1, final, emitted + text[flushed..o + 1], notes);
      DrainSkip(resolve, text, flushed, final);
      Regroup(emitted, notes, text[flushed..o + 1], [], Drain(resolve, text, o + 1, final));
    }
  }

  lemma ResolvedConserves(rewrite: string -> string, text: string, flushed: nat, emitted: string,
                          notes: seq<Annotation>)
    requires Conserved(text, flushed, emitted, notes)
    ensures Conserved(Resolved(rewrite, text, flushed), flushed, emitted, notes)
  {}

  method FindNextLinkOpen(text: string, from: nat) returns (i: nat)
    requires from <= |text|
    ensures i == NextOpen(text, from)
  {
    i := from;
    while i < |text| && !IsOpen(text[i])
      invariant from <= i <= |text| && NextOpen(text, from) == NextOpen(text, i)
    {
      i := i + 1;
    }
  }

  lemma PrependAssoc(a: string, m: seq<Annotation>, b: string, n: seq<Annotation>, d: Drained)
    ensures Prepend(a, m, Prepend(b, n, d)) == Prepend(a + b, m + n, d)
  {
    assert a + (b + d.content) == (a + b) + d.content;
    assert m + (n + d.notes) == (m + n) + d.notes;
  }

  class Emitter {
    var text: string
    var flushed: nat
    ghost var emitted: string        // all content returned so far
    ghost var notes: seq<Annotation> // all annotations returned so far

    ghost predicate Valid()
      reads this
    {
      Conserved(text, flushed, emitted, notes)
    }

    constructor ()
      ensures Valid() && text == "" && flushed == 0 && emitted == "" && notes == []
    {
      text, flushed, emitted, notes := "", 0, "", [];
    }

    /** The loop of drain, after the Harmony rewrite. */
    method DrainText(resolve: string -> Option<Source>, final: bool)
      returns (content: string, annotations: seq<Annotation>)
      requires flushed <= |text|
      modifies this`text, this`flushed
      ensures Drained(text, flushed, content, annotations) == Drain(resolve, old(text), old(flushed), final)
    {
      hide MatchLink, Normalize, NextOpen, Drain;
      content, annotations := "", [];
      ghost var whole := Drain(resolve, text, flushed, final);
      assert "" + whole.content == whole.content && [] + whole.notes == whole.notes;
      while flushed < |text|
        invariant flushed <= |text|
        invariant whole == Prepend(content, annotations, Drain(resolve, text, flushed, final))
        decreases |text| - flushed
      {
        ghost var d := Drain(resolve, text, flushed, final);
        var open := FindNextLinkOpen(text, flushed);
        if open == |text| {
          DrainRest(resolve, text, flushed, final);
          content := content + text[flushed..];
          flushed := |text|;
          assert annotations + [] == annotations;
          return;
        }
        var o := MatchMarkdownLink(text, open);
        if o.Match? {
          DrainMatch(resolve, text, flushed, final);
          var text' := NormalizeLinkBrackets(text, open, o.end);
          var piece := text[flushed..open] + text'[open..o.end];
          PrependAssoc(content, annotations, piece, Note(resolve, o), Drain(resolve, text', o.end, final));
          content := content + piece;
          annotations := annotations + Note(resolve, o);
          text := text';
          flushed := o.end;
        } else if o.Incomplete? && !final && |text| - open <= MAX_LINK_BUFFER_RUNES {
          DrainHold(resolve, text, flushed, final);
          content := content + text[flushed..open];
          flushed := open;
          assert annotations + [] == annotations;
          return;
        } else {
          DrainSkip(resolve, text, flushed, final);
          PrependAssoc(content, annotations, text[flushed..open + 1], [], Drain(resolve, text, open + 1, final));
          content := content + text[flushed..open + 1];
          flushed := open + 1;
          assert annotations + [] == annotations;
        }
      }
      DrainDone(resolve, text, final);
      assert content + "" == content && annotations + [] == annotations;
    }

    method Push(resolve: string -> Option<Source>, rewrite: string -> string, delta: string)
      returns (content: string, annotations: seq<Annotation>)
      requires Valid()
      modifies this
      ensures Valid() && flushed <= |text| && emitted == old(emitted) + content && notes == old(notes) + annotations
      ensures delta == "" ==> content == "" && annotations == [] && text == old(text) && flushed == old(flushed)
      ensures delta != "" ==> Waiting(text, flushed)
      ensures delta != "" ==>
        Drained(text, flushed, content, annotations) ==
        Drain(resolve, Resolved(rewrite, old(text) + delta, old(flushed)), old(flushed), false)
    {
      if delta == "" { return "", []; }
      ghost var grown := text + delta;
      assert grown[..flushed] == text[..flushed];
      text := text + delta;
      ResolvedConserves(rewrite, text, flushed, emitted, notes);
      text := Resolved(rewrite, text, flushed);
      DrainConserves(resolve, text, flushed, false, emitted, notes);
      content, annotations := DrainText(resolve, false);
      emitted, notes := emitted + content, notes + annotations;
    }

    method Flush(resolve: string -> Option<Source>, rewrite: string -> string)
      returns (content: string, annotations: seq<Annotation>)
      requires Valid()
      modifies this
      ensures Valid() && flushed <= |text| && emitted == old(emitted) + content && notes == old(notes) + annotations
      ensures flushed == |text|
      ensures Drained(text, flushed, content, annotations) ==
              Drain(resolve, Resolved(rewrite, old(text), old(flushed)), old(flushed), true)
    {
      ResolvedConserves(rewrite, text, flushed, emitted, notes);
      text := Resolved(rewrite, text, flushed);
      DrainConserves(resolve, text, flushed, true, emitted, notes);
      content, annotations := DrainText(resolve, true);
      emitted, notes := emitted + content, notes + annotations;
    }
  }

  lemma DrainDone(resolve: string -> Option<Source>, text: string, final: bool)
    ensures Drain(resolve, text, |text|, final) == Drained(text, |text|, "", [])
  {}

  /** With Harmony off a push and a flush are those of the streaming theorems. */
  lemma HarmonyOff(rewrite: string -> string, text: string, flushed: nat)
    requires flushed <= |text| && forall s :: rewrite(s) == s
    ensures Resolved(rewrite, text, flushed) == text
  {
    assert text[..flushed] + text[flushed..] == text;
  }

  /** The text a stream of deltas has rendered so far, and what a drain of the rest will add. */
  lemma PushAllStep(resolve: string -> Option<Source>, text: string, flushed: nat, deltas: seq<string>, k: nat, d: Drained)
    requires flushed <= |text| && k < |deltas| && d == CitationStream.Push(resolve, text, flushed, deltas[k])
    ensures d.flushed <= |d.text|
    ensures PushAll(resolve, text, flushed, deltas[k..]) == Join(d.content, d.notes, PushAll(resolve, d.text, d.flushed, deltas[k + 1..]))
  {
    hide Drain;
    assert deltas[k..][0] == deltas[k] && deltas[k..][1..] == deltas[k + 1..];
  }

  /** A whole stream through an emitter with Harmony off: all that it has emitted after the pushes and
      the flush is what the streaming theorems are about. */
  method StreamAll(resolve: string -> Option<Source>, rewrite: string -> string, deltas: seq<string>)
    returns (e: Emitter, content: string, annotations: seq<Annotation>)
    requires forall s :: rewrite(s) == s
    ensures e.Valid() && e.flushed == |e.text| && content == e.emitted && annotations == e.notes
    ensures Rendered(e.emitted, e.notes) == Streamed(resolve, deltas)
  {
    hide Drain, Conserved;
    e := new Emitter();
    content, annotations := "", [];
    ghost var whole := Streamed(resolve, deltas);
    assert deltas[0..] == deltas;
    JoinNothing(whole);
    for k := 0 to |deltas|
      invariant fresh(e) && e.Valid() && e.flushed <= |e.text| && content == e.emitted && annotations == e.notes
      invariant whole == Join(e.emitted, e.notes, PushAll(resolve, e.text, e.flushed, deltas[k..]))
    {
      ghost var text, flushed, emitted, notes := e.text, e.flushed, e.emitted, e.notes;
      HarmonyOffPush(rewrite, text, deltas[k], flushed);
      var more, added := e.Push(resolve, rewrite, deltas[k]);
      ghost var d := CitationStream.Push(resolve, text, flushed, deltas[k]);
      assert d == Drained(e.text, e.flushed, more, added);
      PushAllStep(resolve, text, flushed, deltas, k, d);
      JoinAssoc(emitted, notes, more, added, PushAll(resolve, e.text, e.flushed, deltas[k + 1..]));
      content, annotations := content + more, annotations + added;
    }
    HarmonyOff(rewrite, e.text, e.flushed);
    assert deltas[|deltas|..] == [];
    var more, added := e.Flush(resolve, rewrite);
    content, annotations := content + more, annotations + added;
  }

  lemma JoinNothing(r: Rendered)
    ensures Join("", [], r) == r
  {}

  lemma HarmonyOffPush(rewrite: string -> string, text: string, delta: string, flushed: nat)
    requires flushed <= |text| && forall s :: rewrite(s) == s
    ensures Resolved(rewrite, text + delta, flushed) == text + delta
  {
    HarmonyOff(rewrite, text + delta, flushed);
  }
}
