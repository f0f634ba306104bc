/** Cutting a document into overlapping windows for the model to read. */
module Windows {
  import opened Text

  /** A window is a stretch of the text. */
  datatype Span = Span(from: nat, to: nat)

  function Overlap(size: nat): nat {
    if size / 10 <= 2000 then size / 10 else 2000
  }

  /** Where a window that starts at `from` ends: at the last line break of its second half, or full. */
  function End(text: string, size: nat, from: nat): (to: nat)
    requires size >= 1 && from < |text|
    ensures from < to <= |text| && to <= from + size
    ensures to == |text| || to - from >= size / 2
  {
    var full := if from + size <= |text| then from + size else |text|;
    if full == |text| then full
    else
      var nl := RFind(text[from + size / 2..full], '\n');
      if nl >= 0 && from + size / 2 + nl > from then from + size / 2 + nl else full
  }

  /** A window that is not the last ends where the last line break of its second half begins, or, if there is none, at its
      full size. */
  lemma EndsAtLineBreak(text: string, size: nat, from: nat)
    requires size >= 1 && from < |text|
    ensures var to := End(text, size, from);
            && (from + size >= |text| ==> to == |text|)
            && (from + size < |text| && to < from + size ==>
                  text[to] == '\n' && from + size / 2 <= to && forall k :: to < k < from + size ==> text[k] != '\n')
            && (from + size < |text| && to >= from + size ==>
                  to == from + size && forall k :: from + size / 2 <= k < from + size && k > from ==> text[k] != '\n')
  {
    if from + size < |text| {
      var half := text[from + size / 2..from + size];
      assert forall k :: 0 <= k < |half| ==> half[k] == text[from + size / 2 + k];
      assert forall k :: from + size / 2 <= k < from + size ==> text[k] == half[k - from - size / 2];
    }
  }

  /** Windows overlap by a tenth of their size, but by no more than 2000 characters. */
  lemma OverlapIs(size: nat)
    ensures 10 * Overlap(size) <= size && Overlap(size) <= 2000
    ensures Overlap(size) == 2000 || 10 * Overlap(size) > size - 10
  {
  }

  /** The next window starts a little before this one ends, and always moves on. */
  function Next(size: nat, from: nat, to: nat): (n: nat)
    requires from < to
    ensures n > from
  {
    if to - Overlap(size) > from + 1 then to - Overlap(size) else from + 1
  }

  function SpansFrom(text: string, size: nat, from: nat): (r: seq<Span>)
    requires size >= 1 && from < |text|
    decreases |text| - from
  {
    var to := End(text, size, from);
    if to >= |text| || Next(size, from, to) >= |text| then [Span(from, to)]
    else [Span(from, to)] + SpansFrom(text, size, Next(size, from, to))
  }

  function Spans(text: string, size: int): seq<Span> {
    if size <= 0 || |text| <= size then [Span(0, |text|)] else SpansFrom(text, size, 0)
  }

  function Slices(text: string, spans: seq<Span>): seq<string>
    requires forall s :: s in spans ==> s.from <= s.to <= |text|
  {
    seq(|spans|, i requires 0 <= i < |spans| => text[spans[i].from..spans[i].to])
  }

  /** What a window list promises: non-empty windows of at most `size` characters, from the start of the
      text to its end, each beginning `Overlap(size)` characters before the end of the one before, and each
      at least `size / 2 - Overlap(size)` further on. */
  predicate Covering(text: string, size: nat, from: nat, spans: seq<Span>) {
    && spans != [] && spans[0].from == from && spans[|spans| - 1].to == |text|
    && (forall i :: 0 <= i < |spans| ==> spans[i].from < spans[i].to <= |text| && spans[i].to <= spans[i].from + size)
    && (forall i :: 0 <= i < |spans| - 1 ==> Follows(size, spans[i], spans[i + 1]))
  }

  predicate Follows(size: nat, s: Span, t: Span) {
    t.from == s.to - Overlap(size) && t.from >= s.from + Stride(size)
  }

  function Stride(size: nat): (n: nat)
    ensures n >= 1
  {
    if size / 2 - Overlap(size) >= 1 then size / 2 - Overlap(size) else 1
  }

  lemma {:induction false} SpansCover(text: string, size: nat, from: nat)
    requires size >= 1 && from < |text|
    ensures Covering(text, size, from, SpansFrom(text, size, from))
    decreases |text| - from
  {
    hide RFind;
    var to := End(text, size, from);
    if to < |text| {
      StrideIsTaken(text, size, from);
      SpansCover(text, size, Next(size, from, to));
      var rest := SpansFrom(text, size, Next(size, from, to));
      var all := [Span(from, to)] + rest;
      forall i | 0 <= i < |all| - 1 ensures Follows(size, all[i], all[i + 1]) {
        if i > 0 {
          assert Follows(size, rest[i - 1], rest[i]);
        }
      }
    }
  }

  lemma StrideIsTaken(text: string, size: nat, from: nat)
    requires size >= 1 && from < |text| && End(text, size, from) < |text|
    ensures var to := End(text, size, from);
            Next(size, from, to) == to - Overlap(size) && from + Stride(size) <= Next(size, from, to) < |text|
  {
    hide End;
  }

  lemma SpansStep(text: string, size: nat, from: nat)
    requires size >= 1 && from < |text|
    ensures var to := End(text, size, from);
            if to >= |text| then SpansFrom(text, size, from) == [Span(from, to)]
            else Next(size, from, to) < |text| && SpansFrom(text, size, from) == [Span(from, to)] + SpansFrom(text, size, Next(size, from, to))
  {
    hide End, Next;
    if End(text, size, from) < |text| {
      StrideIsTaken(text, size, from);
    }
  }

  lemma SlicesNone(text: string)
    ensures Slices(text, []) == []
  {
  }

  lemma SlicesWhole(text: string)
    ensures Slices(text, [Span(0, |text|)]) == [text]
  {
    assert text[0..|text|] == text;
  }

  lemma Reassociate(xs: seq<Span>, x: Span, ys: seq<Span>)
    ensures xs + ([x] + ys) == (xs + [x]) + ys
  {
  }

  lemma SlicesMore(text: string, spans: seq<Span>, s: Span)
    requires forall t :: t in spans ==> t.from <= t.to <= |text|
    requires s.from <= s.to <= |text|
    ensures Slices(text, spans + [s]) == Slices(text, spans) + [text[s.from..s.to]]
  {
  }

  /** `windows`: the windows as text. */
  method Windows(text: string, size: int) returns (out: seq<string>)
    ensures forall s :: s in Spans(text, size) ==> s.from <= s.to <= |text|
    ensures out == Slices(text, Spans(text, size))
  {
    hide End, Next, SpansFrom, Slices, RFind, Overlap, Stride;
    if size <= 0 || |text| <= size {
      SlicesWhole(text);
      return [text];
    }
    SpansInText(text, size, 0);
    var start := 0;
    ghost var spans: seq<Span> := [];
    out := [];
    SlicesNone(text);
    while start < |text|
      invariant start < |text|
      invariant spans + SpansFrom(text, size, start) == Spans(text, size)
      invariant forall s :: s in spans ==> s.from <= s.to <= |text|
      invariant out == Slices(text, spans)
      decreases |text| - start
    {
      var end := End(text, size, start);
      SpansStep(text, size, start);
      SlicesMore(text, spans, Span(start, end));
      out := out + [text[start..end]];
      if end >= |text| {
        return;
      }
      var next := Next(size, start, end);
      Reassociate(spans, Span(start, end), SpansFrom(text, size, next));
      spans := spans + [Span(start, end)];
      start := next;
    }
  }

  lemma SpansInText(text: string, size: nat, from: nat)
    requires size >= 1 && from < |text|
    ensures forall s :: s in SpansFrom(text, size, from) ==> s.from <= s.to <= |text|
  {
    SpansCover(text, size, from);
  }

  /** The index of a window that holds the stretch from `a` to `b`. */
  lemma {:induction false} Holder(text: string, size: nat, from: nat, spans: seq<Span>, a: nat, b: nat) returns (i: nat)
    requires Covering(text, size, from, spans) && from <= a <= b <= |text| && b - a <= Overlap(size)
    ensures i < |spans| && spans[i].from <= a && b <= spans[i].to
    decreases |spans|
  {
    if |spans| == 1 || b <= spans[0].to {
      i := 0;
    } else {
      assert Follows(size, spans[0], spans[1]);
      var rest := spans[1..];
      forall j | 0 <= j < |rest| - 1 ensures Follows(size, rest[j], rest[j + 1]) {
        assert Follows(size, spans[j + 1], spans[j + 2]);
      }
      i := Holder(text, size, spans[1].from, rest, a, b);
      i := i + 1;
    }
  }

  lemma {:induction false} StartsAdvance(text: string, size: nat, from: nat, spans: seq<Span>, i: nat)
    requires Covering(text, size, from, spans) && i < |spans|
    ensures spans[i].from >= from + i * Stride(size)
    decreases i
  {
    if i > 0 {
      StartsAdvance(text, size, from, spans, i - 1);
      assert Follows(size, spans[i - 1], spans[i]);
      assert (i - 1) * Stride(size) + Stride(size) == i * Stride(size);
    }
  }

  predicate HeldWhole(spans: seq<Span>, a: int, b: int) {
    exists s :: s in spans && s.from <= a && b <= s.to
  }

  /** The windows of a text: they hold every stretch no longer than the overlap whole (so, every character
      when the size allows any overlap), none is longer than `size` unless `size` is no limit, none is empty
      unless the text is, and there are at most |text| / stride + 1 of them. */
  lemma WindowsHoldEverything(text: string, size: int)
    ensures var spans := Spans(text, size);
            && spans != [] && spans[0].from == 0 && spans[|spans| - 1].to == |text|
            && (forall s :: s in spans ==> s.from <= s.to <= |text| && (text != "" ==> s.from < s.to) && (size > 0 ==> s.to - s.from <= size))
            && (forall i :: 0 <= i < |spans| - 1 ==> spans[i].from < spans[i + 1].from <= spans[i].to)
    ensures size > 0 ==> forall a, b :: 0 <= a <= b <= |text| && b - a <= Overlap(size) ==> HeldWhole(Spans(text, size), a, b)
    ensures size > 0 ==> (|Spans(text, size)| - 1) * Stride(size) <= |text|
  {
    hide End, Next, SpansFrom;
    var spans := Spans(text, size);
    if size > 0 && |text| > size {
      SpansCover(text, size, 0);
      forall i | 0 <= i < |spans| - 1 ensures spans[i].from < spans[i + 1].from <= spans[i].to {
        assert Follows(size, spans[i], spans[i + 1]);
      }
      forall a: int, b: int | 0 <= a <= b <= |text| && b - a <= Overlap(size) ensures HeldWhole(spans, a, b) {
        var i := Holder(text, size, 0, spans, a, b);
        assert spans[i] in spans;
      }
      StartsAdvance(text, size, 0, spans, |spans| - 1);
    } else {
      assert spans[0] in spans;
    }
  }
}
