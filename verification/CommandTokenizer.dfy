/** The argument splitter of `my_popen`: it cuts a command text in place into NUL-terminated strings. */
module CommandTokenizer {
  import opened Sequences

  const NUL: char := '\0'
  const QUOTE: char := '"'
  const MAX_ARGS: nat := 20

  predicate IsSpace(c: char) {
    c == ' ' || ('\t' <= c <= '\r')
  }

  // ----- Specification ----------------------------------------------------------------------

  /** An argument lies at `text[start..end]`; its terminator goes to `end`. */
  datatype Slice = Slice(start: nat, end: nat)

  /** The first quote from `k` on, or the end of the text. */
  function QuoteFrom(text: seq<char>, k: nat): (r: nat)
    requires k <= |text|
    ensures k <= r <= |text|
    decreases |text| - k
  {
    if k == |text| || text[k] == QUOTE then k else QuoteFrom(text, k + 1)
  }

  function SpaceFrom(text: seq<char>, k: nat): (r: nat)
    requires k <= |text|
    ensures k <= r <= |text|
    decreases |text| - k
  {
    if k == |text| || IsSpace(text[k]) then k else SpaceFrom(text, k + 1)
  }

  function NonSpaceFrom(text: seq<char>, k: nat): (r: nat)
    requires k <= |text|
    ensures k <= r <= |text|
    decreases |text| - k
  {
    if k == |text| || !IsSpace(text[k]) then k else NonSpaceFrom(text, k + 1)
  }

  /** The argument that starts at position `k`. */
  function SliceAt(text: seq<char>, k: nat): (r: Slice)
    requires k < |text|
    ensures k <= r.start <= r.end <= |text|
  {
    if text[k] == QUOTE then Slice(k + 1, QuoteFrom(text, k + 1)) else Slice(k, SpaceFrom(text, k))
  }

  /** Where the next argument starts. */
  function NextAt(text: seq<char>, k: nat): (r: nat)
    requires k < |text|
    ensures k < r <= |text| && SliceAt(text, k).end <= r
    ensures SliceAt(text, k).end < |text| ==> SliceAt(text, k).end < r
  {
    var end := SliceAt(text, k).end;
    NonSpaceFrom(text, if end < |text| then end + 1 else end)
  }

  function Slices(text: seq<char>, k: nat): seq<Slice>
    requires k <= |text|
    decreases |text| - k
  {
    if k == |text| then [] else [SliceAt(text, k)] + Slices(text, NextAt(text, k))
  }

  /** The text with every terminator that falls inside it written. */
  function Cut(text: seq<char>, slices: seq<Slice>): (r: seq<char>)
    ensures |r| == |text|
  {
    if slices == [] then text
    else
      var rest := Cut(text, slices[1..]);
      if slices[0].end < |text| then rest[slices[0].end := NUL] else rest
  }

  /** The C string at an offset of a buffer: up to the first NUL. */
  function CString(buffer: seq<char>, start: nat): seq<char>
    decreases |buffer| - start
  {
    if start >= |buffer| || buffer[start] == NUL then [] else [buffer[start]] + CString(buffer, start + 1)
  }

  // ----- Slices -----------------------------------------------------------------------------

  /** Slices come in order, and each starts behind the terminator of the one before. */
  ghost predicate Ordered(s: seq<Slice>, from: nat, length: nat) {
    && (forall i :: 0 <= i < |s| ==> from <= s[i].start <= s[i].end <= length)
    && (forall i, j :: 0 <= i < j < |s| ==> s[i].end < s[j].start)
  }

  lemma {:induction false} SlicesOrdered(text: seq<char>, k: nat)
    requires k <= |text|
    ensures Ordered(Slices(text, k), k, |text|)
    decreases |text| - k
  {
    if k < |text| {
      var s, rest := Slices(text, k), Slices(text, NextAt(text, k));
      SlicesOrdered(text, NextAt(text, k));
      assert forall i :: 1 <= i < |s| ==> s[i] == rest[i - 1];
      assert rest != [] ==> NextAt(text, k) < |text| && s[0].end < NextAt(text, k);
    }
  }

  /** Whether some slice is terminated at `p`. */
  ghost predicate EndsAt(s: seq<Slice>, p: nat) {
    exists i :: 0 <= i < |s| && s[i].end == p
  }

  lemma {:induction false} CutAt(text: seq<char>, s: seq<Slice>, p: nat)
    requires p < |text|
    ensures Cut(text, s)[p] == if EndsAt(s, p) then NUL else text[p]
  {
    if s != [] {
      CutAt(text, s[1..], p);
      if EndsAt(s, p) {
        var i :| 0 <= i < |s| && s[i].end == p;
        if i > 0 { assert s[1..][i - 1].end == p; }
      } else {
        assert forall i :: 0 <= i < |s[1..]| ==> s[1..][i] == s[i + 1];
      }
    }
  }

  lemma {:induction false} CStringIs(buffer: seq<char>, start: nat, end: nat)
    requires start <= end < |buffer| && buffer[end] == NUL && forall p :: start <= p < end ==> buffer[p] != NUL
    ensures CString(buffer, start) == buffer[start..end]
    decreases end - start
  {
    if start < end {
      CStringIs(buffer, start + 1, end);
      assert buffer[start..end] == [buffer[start]] + buffer[start + 1..end];
    }
  }

  lemma NoEndInside(s: seq<Slice>, length: nat, i: nat, p: nat)
    requires Ordered(s, 0, length) && i < |s| && s[i].start <= p < s[i].end
    ensures !EndsAt(s, p)
  {
    forall j | 0 <= j < |s| ensures s[j].end != p {
      if j < i { assert s[j].end < s[i].start; }
      if j > i { assert s[i].end < s[j].start; }
    }
  }

  /** After cutting, the C string at each argument's start is the argument, for any text without NULs
      that is followed by a NUL. */
  lemma ArgumentsAreSlices(text: seq<char>, tail: seq<char>, i: nat)
    requires (forall p :: 0 <= p < |text| ==> text[p] != NUL) && tail != [] && tail[0] == NUL
    requires i < |Slices(text, 0)|
    ensures var s := Slices(text, 0)[i];
      s.end <= |text| && s.start <= s.end && CString(Cut(text, Slices(text, 0)) + tail, s.start) == text[s.start..s.end]
  {
    SlicesOrdered(text, 0);
    hide Slices;
    var all := Slices(text, 0);
    var s, buffer := all[i], Cut(text, all) + tail;
    forall p | s.start <= p < s.end ensures buffer[p] == text[p] {
      CutAt(text, all, p);
      NoEndInside(all, |text|, i, p);
    }
    if s.end < |text| {
      CutAt(text, all, s.end);
      assert EndsAt(all, s.end);
    }
    hide Cut;
    CStringIs(buffer, s.start, s.end);
    assert buffer[s.start..s.end] == text[s.start..s.end];
  }

  // ----- What a slice is --------------------------------------------------------------------

  /** The six white characters: blank, tab, line feed, vertical tab, form feed, carriage return. */
  predicate White(c: char) {
    c == ' ' || c == '\t' || c == '\n' || c == '\U{0b}' || c == '\U{0c}' || c == '\r'
  }

  lemma SpacesAreWhite()
    ensures forall c :: IsSpace(c) <==> White(c)
  {
  }

  lemma {:induction false} QuoteFromStops(text: seq<char>, k: nat)
    requires k <= |text|
    ensures var r := QuoteFrom(text, k); (forall p :: k <= p < r ==> text[p] != '"') && (r < |text| ==> text[r] == '"')
    decreases |text| - k
  {
    if k < |text| && text[k] != '"' {
      QuoteFromStops(text, k + 1);
    }
  }

  lemma {:induction false} SpaceFromStops(text: seq<char>, k: nat)
    requires k <= |text|
    ensures var r := SpaceFrom(text, k); (forall p :: k <= p < r ==> !White(text[p])) && (r < |text| ==> White(text[r]))
    decreases |text| - k
  {
    SpacesAreWhite();
    if k < |text| && !White(text[k]) {
      SpaceFromStops(text, k + 1);
    }
  }

  lemma {:induction false} NonSpaceFromStops(text: seq<char>, k: nat)
    requires k <= |text|
    ensures var r := NonSpaceFrom(text, k);
      (forall p :: k <= p < r ==> White(text[p])) && (r < |text| ==> !White(text[r]))
    decreases |text| - k
  {
    SpacesAreWhite();
    if k < |text| && White(text[k]) {
      NonSpaceFromStops(text, k + 1);
    }
  }

  /** An argument that starts with a quote is what lies between it and the next quote; any other ends at the
      next white character; both may end with the text.  Only white characters lie between its
      terminator and the next argument, and the next argument starts with none. */
  lemma SliceAtMeans(text: seq<char>, k: nat)
    requires k < |text|
    ensures var s, next := SliceAt(text, k), NextAt(text, k);
      && (if text[k] == '"' then
            && s.start == k + 1 && (forall p :: s.start <= p < s.end ==> text[p] != '"')
            && (s.end < |text| ==> text[s.end] == '"')
          else
            && s.start == k && (forall p :: k <= p < s.end ==> !White(text[p]))
            && (s.end < |text| ==> White(text[s.end])))
      && (forall p :: s.end < p < next ==> White(text[p])) && (next < |text| ==> !White(text[next]))
  {
    QuoteFromStops(text, k + 1);
    SpaceFromStops(text, k);
    var end := SliceAt(text, k).end;
    NonSpaceFromStops(text, if end < |text| then end + 1 else end);
  }

  // ----- Round trip -------------------------------------------------------------------------

  /** An argument as a caller may write it. */
  datatype Word = Bare(text: seq<char>) | InQuotes(text: seq<char>)

  function Shown(w: Word): seq<char> {
    match w
    case Bare(t) => t
    case InQuotes(t) => ['"'] + t + ['"']
  }

  /** A bare word is not empty, has no white characters and does not start with a quote; a quoted one has
      no quotes.  Neither has NULs. */
  predicate WordOk(w: Word) {
    match w
    case Bare(t) => t != [] && t[0] != '"' && forall p :: 0 <= p < |t| ==> !White(t[p]) && t[p] != '\0'
    case InQuotes(t) => forall p :: 0 <= p < |t| ==> t[p] != '"' && t[p] != '\0'
  }

  /** Words with gaps behind them: white characters, at least one between two words. */
  predicate Writable(words: seq<Word>, gaps: seq<seq<char>>) {
    && |gaps| == |words|
    && (forall i :: 0 <= i < |words| ==> WordOk(words[i]))
    && (forall i, p :: 0 <= i < |gaps| && 0 <= p < |gaps[i]| ==> White(gaps[i][p]))
    && (forall i :: 0 <= i < |gaps| - 1 ==> gaps[i] != [])
  }

  function Print(words: seq<Word>, gaps: seq<seq<char>>): seq<char>
    requires |gaps| == |words|
  {
    if words == [] then [] else Shown(words[0]) + (gaps[0] + Print(words[1..], gaps[1..]))
  }

  /** The text from position `k` on holds this. */
  predicate HoldsAt(text: seq<char>, k: nat, s: seq<char>) {
    k + |s| <= |text| && forall j :: 0 <= j < |s| ==> text[k + j] == s[j]
  }

  /** From position `k` on, the text holds these words and gaps, and nothing else. */
  ghost predicate PrintedAt(text: seq<char>, k: nat, words: seq<Word>, gaps: seq<seq<char>>)
    requires |gaps| == |words|
    decreases |words|
  {
    if words == [] then k == |text|
    else
      var after := k + |Shown(words[0])|;
      && HoldsAt(text, k, Shown(words[0])) && HoldsAt(text, after, gaps[0])
      && PrintedAt(text, after + |gaps[0]|, words[1..], gaps[1..])
  }

  lemma HoldsShift(pre: seq<char>, t: seq<char>, k: nat, s: seq<char>)
    requires HoldsAt(t, k, s)
    ensures HoldsAt(pre + t, |pre| + k, s)
  {
    forall j | 0 <= j < |s| ensures (pre + t)[|pre| + k + j] == s[j] {
      assert (pre + t)[|pre| + (k + j)] == t[k + j];
    }
  }

  lemma {:induction false} PrintedShift(pre: seq<char>, t: seq<char>, k: nat, words: seq<Word>, gaps: seq<seq<char>>)
    requires |gaps| == |words| && PrintedAt(t, k, words, gaps)
    ensures PrintedAt(pre + t, |pre| + k, words, gaps)
    decreases |words|
  {
    hide HoldsAt, Shown;
    if words != [] {
      var after := k + |Shown(words[0])|;
      HoldsShift(pre, t, k, Shown(words[0]));
      HoldsShift(pre, t, after, gaps[0]);
      PrintedShift(pre, t, after + |gaps[0]|, words[1..], gaps[1..]);
      assert |pre| + (after + |gaps[0]|) == |pre| + k + |Shown(words[0])| + |gaps[0]|;
    }
  }

  lemma HoldsPrefix(a: seq<char>, b: seq<char>)
    ensures HoldsAt(a + b, 0, a)
  {
  }

  lemma {:induction false} PrintedJoin(text: seq<char>, words: seq<Word>, gaps: seq<seq<char>>, after: nat)
    requires words != [] && |gaps| == |words| && after == |Shown(words[0])|
    requires HoldsAt(text, 0, Shown(words[0])) && HoldsAt(text, after, gaps[0])
    requires PrintedAt(text, after + |gaps[0]|, words[1..], gaps[1..])
    ensures PrintedAt(text, 0, words, gaps)
  {
    hide HoldsAt, Shown;
  }

  lemma {:induction false} PrintedCons(rest: seq<char>, words: seq<Word>, gaps: seq<seq<char>>)
    requires words != [] && |gaps| == |words| && PrintedAt(rest, 0, words[1..], gaps[1..])
    ensures PrintedAt(Shown(words[0]) + (gaps[0] + rest), 0, words, gaps)
  {
    hide PrintedAt, HoldsAt, Shown;
    var word, gap := Shown(words[0]), gaps[0];
    PrintedShift(gap, rest, 0, words[1..], gaps[1..]);
    PrintedShift(word, gap + rest, |gap| + 0, words[1..], gaps[1..]);
    HoldsPrefix(word, gap + rest);
    HoldsPrefix(gap, rest);
    HoldsShift(word, gap + rest, 0, gap);
    PrintedJoin(word + (gap + rest), words, gaps, |word|);
  }

  lemma {:induction false} PrintIsPrinted(words: seq<Word>, gaps: seq<seq<char>>)
    requires |gaps| == |words|
    ensures PrintedAt(Print(words, gaps), 0, words, gaps)
    decreases |words|
  {
    if words != [] {
      hide Shown, HoldsAt;
      PrintIsPrinted(words[1..], gaps[1..]);
      hide PrintedAt;
      PrintedCons(Print(words[1..], gaps[1..]), words, gaps);
    }
  }

  lemma WritableRest(words: seq<Word>, gaps: seq<seq<char>>)
    requires words != [] && Writable(words, gaps)
    ensures Writable(words[1..], gaps[1..])
  {
  }

  /** The next word does not start with a white character. */
  lemma {:induction false} PrintedStart(text: seq<char>, k: nat, words: seq<Word>, gaps: seq<seq<char>>)
    requires words != [] && Writable(words, gaps) && PrintedAt(text, k, words, gaps)
    ensures k < |text| && !White(text[k])
  {
    assert WordOk(words[0]) && text[k + 0] == Shown(words[0])[0];
  }

  lemma {:induction false} QuoteFromIs(text: seq<char>, k: nat, r: nat)
    requires k <= r < |text| && text[r] == '"' && forall j :: k <= j < r ==> text[j] != '"'
    ensures QuoteFrom(text, k) == r
    decreases r - k
  {
    if k < r {
      QuoteFromIs(text, k + 1, r);
    }
  }

  lemma {:induction false} SpaceFromIs(text: seq<char>, k: nat, r: nat)
    requires k <= r <= |text| && (r < |text| ==> White(text[r])) && forall j :: k <= j < r ==> !White(text[j])
    ensures SpaceFrom(text, k) == r
    decreases r - k
  {
    SpacesAreWhite();
    if k < r {
      SpaceFromIs(text, k + 1, r);
    }
  }

  lemma {:induction false} NonSpaceFromIs(text: seq<char>, k: nat, r: nat)
    requires k <= r <= |text| && (r < |text| ==> !White(text[r])) && forall j :: k <= j < r ==> White(text[j])
    ensures NonSpaceFrom(text, k) == r
    decreases r - k
  {
    SpacesAreWhite();
    if k < r {
      NonSpaceFromIs(text, k + 1, r);
    }
  }

  /** Where the first word of a printed text ends, and where the next one starts. */
  lemma {:induction false} PrintedEnds(text: seq<char>, k: nat, words: seq<Word>, gaps: seq<seq<char>>)
    returns (after: nat, next: nat)
    requires words != [] && Writable(words, gaps) && PrintedAt(text, k, words, gaps)
    ensures after == k + |Shown(words[0])| <= next <= |text| && HoldsAt(text, k, Shown(words[0]))
    ensures (forall p :: after <= p < next ==> White(text[p])) && (next < |text| ==> !White(text[next]))
    ensures after == next ==> next == |text|
    ensures PrintedAt(text, next, words[1..], gaps[1..])
  {
    after := k + |Shown(words[0])|;
    next := after + |gaps[0]|;
    forall p | after <= p < next ensures White(text[p]) {
      assert text[after + (p - after)] == gaps[0][p - after];
    }
    WritableRest(words, gaps);
    if words[1..] != [] {
      PrintedStart(text, next, words[1..], gaps[1..]);
      assert gaps[0] != [];
    }
  }

  lemma {:induction false} BareStep(text: seq<char>, k: nat, w: seq<char>, next: nat)
    requires WordOk(Bare(w)) && HoldsAt(text, k, w) && k + |w| <= next <= |text| && (k + |w| == next ==> next == |text|)
    requires (forall p :: k + |w| <= p < next ==> White(text[p])) && (next < |text| ==> !White(text[next]))
    ensures SliceAt(text, k) == Slice(k, k + |w|) && text[k..k + |w|] == w && NextAt(text, k) == next
  {
    var after := k + |w|;
    forall p | k <= p < after ensures text[p] == w[p - k] {
      assert text[k + (p - k)] == w[p - k];
    }
    SpaceFromIs(text, k, after);
    NonSpaceFromIs(text, if after < |text| then after + 1 else after, next);
  }

  lemma {:induction false} QuotedStep(text: seq<char>, k: nat, w: seq<char>, next: nat)
    requires WordOk(InQuotes(w)) && HoldsAt(text, k, Shown(InQuotes(w))) && k + |w| + 2 <= next <= |text|
    requires (forall p :: k + |w| + 2 <= p < next ==> White(text[p])) && (next < |text| ==> !White(text[next]))
    ensures SliceAt(text, k) == Slice(k + 1, k + 1 + |w|) && text[k + 1..k + 1 + |w|] == w && NextAt(text, k) == next
  {
    var end, shown := k + 1 + |w|, Shown(InQuotes(w));
    assert shown[0] == '"' && shown[|w| + 1] == '"' && forall j :: 0 <= j < |w| ==> shown[j + 1] == w[j];
    assert text[k + 0] == '"' && text[k + (|w| + 1)] == '"';
    forall p | k + 1 <= p < end ensures text[p] == w[p - k - 1] {
      assert text[k + (p - k)] == shown[p - k - 1 + 1];
    }
    QuoteFromIs(text, k + 1, end);
    NonSpaceFromIs(text, end + 1, next);
  }

  /** The splitter's first step on a printed text. */
  lemma {:induction false} PrintedStep(text: seq<char>, k: nat, words: seq<Word>, gaps: seq<seq<char>>)
    requires words != [] && Writable(words, gaps) && PrintedAt(text, k, words, gaps)
    ensures k < |text|
    ensures var s := SliceAt(text, k); text[s.start..s.end] == words[0].text
    ensures PrintedAt(text, NextAt(text, k), words[1..], gaps[1..])
  {
    PrintedStart(text, k, words, gaps);
    var after, next := PrintedEnds(text, k, words, gaps);
    assert WordOk(words[0]);
    hide PrintedAt, Writable, HoldsAt, WordOk;
    if words[0].Bare? {
      BareStep(text, k, words[0].text, next);
    } else {
      assert |Shown(words[0])| == |words[0].text| + 2;
      QuotedStep(text, k, words[0].text, next);
    }
  }

  /** Reading printed words back. */
  ghost predicate ReadsBack(text: seq<char>, s: seq<Slice>, words: seq<Word>) {
    && |s| == |words|
    && forall i :: 0 <= i < |s| ==> s[i].start <= s[i].end <= |text| && text[s[i].start..s[i].end] == words[i].text
  }

  lemma ReadsMore(text: seq<char>, slice: Slice, s: seq<Slice>, words: seq<Word>)
    requires words != [] && ReadsBack(text, s, words[1..])
    requires slice.start <= slice.end <= |text| && text[slice.start..slice.end] == words[0].text
    ensures ReadsBack(text, [slice] + s, words)
  {
    var all := [slice] + s;
    forall i | 0 <= i < |all|
      ensures all[i].start <= all[i].end <= |text| && text[all[i].start..all[i].end] == words[i].text
    {
      if i > 0 { assert all[i] == s[i - 1] && words[i] == words[1..][i - 1]; }
    }
  }

  lemma {:induction false} PrintedReadsBack(text: seq<char>, k: nat, words: seq<Word>, gaps: seq<seq<char>>)
    requires Writable(words, gaps) && PrintedAt(text, k, words, gaps) && k <= |text|
    ensures ReadsBack(text, Slices(text, k), words)
    decreases |words|
  {
    if words == [] {
      assert Slices(text, k) == [];
    } else {
      PrintedStep(text, k, words, gaps);
      WritableRest(words, gaps);
      hide PrintedAt, SliceAt, ReadsBack, Writable;
      PrintedReadsBack(text, NextAt(text, k), words[1..], gaps[1..]);
      ReadsMore(text, SliceAt(text, k), Slices(text, NextAt(text, k)), words);
    }
  }

  lemma NoNuls(w: Word)
    requires WordOk(w)
    ensures forall p :: 0 <= p < |Shown(w)| ==> Shown(w)[p] != NUL
  {
  }

  lemma {:induction false} PrintPlain(words: seq<Word>, gaps: seq<seq<char>>)
    requires Writable(words, gaps)
    ensures forall p :: 0 <= p < |Print(words, gaps)| ==> Print(words, gaps)[p] != NUL
    decreases |words|
  {
    if words != [] {
      NoNuls(words[0]);
      WritableRest(words, gaps);
      PrintPlain(words[1..], gaps[1..]);
      var rest := Print(words[1..], gaps[1..]);
      assert forall p :: 0 <= p < |gaps[0]| ==> gaps[0][p] != NUL;
      hide Writable, Shown, WordOk;
      assert forall p :: 0 <= p < |gaps[0] + rest| ==> (gaps[0] + rest)[p] != NUL;
    }
  }

  /** Words, bare or quoted, with any white characters between them and behind the last, come back
      unchanged, in number and in order. */
  lemma RoundTrip(words: seq<Word>, gaps: seq<seq<char>>, tail: seq<char>)
    requires Writable(words, gaps) && tail != [] && tail[0] == '\0'
    ensures var text := Print(words, gaps); var s := Slices(text, 0);
      && |s| == |words| && Ordered(s, 0, |text|)
      && forall i :: 0 <= i < |s| ==> CString(Cut(text, s) + tail, s[i].start) == words[i].text
  {
    PrintIsPrinted(words, gaps);
    hide Writable, Print, PrintedAt;
    var text := Print(words, gaps);
    PrintedReadsBack(text, 0, words, gaps);
    PrintPlain(words, gaps);
    SlicesOrdered(text, 0);
    forall i | 0 <= i < |Slices(text, 0)|
      ensures CString(Cut(text, Slices(text, 0)) + tail, Slices(text, 0)[i].start) == words[i].text
    {
      ArgumentsAreSlices(text, tail, i);
    }
  }

  /** In particular quoted arguments, without quotes and NULs inside, one blank apart. */
  lemma QuotedRoundTrip(args: seq<seq<char>>, tail: seq<char>)
    requires forall i, p :: 0 <= i < |args| && 0 <= p < |args[i]| ==> args[i][p] != '"' && args[i][p] != '\0'
    requires tail != [] && tail[0] == '\0'
    ensures var words := seq(|args|, i requires 0 <= i < |args| => InQuotes(args[i]));
      var gaps := seq(|args|, i => if i + 1 < |args| then [' '] else []);
      var text := Print(words, gaps); var s := Slices(text, 0);
      && |s| == |args| && forall i :: 0 <= i < |s| ==> CString(Cut(text, s) + tail, s[i].start) == args[i]
  {
    var words := seq(|args|, i requires 0 <= i < |args| => InQuotes(args[i]));
    var gaps: seq<seq<char>> := seq(|args|, i => if i + 1 < |args| then [' '] else []);
    assert Writable(words, gaps);
    RoundTrip(words, gaps, tail);
  }

  /** The loop that skips leading white space has no effect, because the splitter starts over at 0: a
      text starts with an empty argument at offset 0 exactly when its first character is white space. */
  lemma LeadingSpaceIff(text: seq<char>)
    requires text != []
    ensures Slices(text, 0)[0] == Slice(0, 0) <==> White(text[0])
  {
  }

  // ----- The splitter -----------------------------------------------------------------------

  /** From `cc` on, the first `nn` characters of the buffer are still those of the text. */
  ghost predicate AgreesFrom(buffer: seq<char>, text: seq<char>, cc: nat, nn: nat) {
    cc <= nn == |text| <= |buffer| && forall j :: cc <= j < nn ==> buffer[j] == text[j]
  }

  method ScanQuote(buffer: array<char>, cc: nat, nn: nat, ghost text: seq<char>) returns (end: nat)
    requires AgreesFrom(buffer[..], text, cc, nn)
    ensures end == QuoteFrom(text, cc)
  {
    end := cc;
    while end < nn && buffer[end] != QUOTE
      invariant cc <= end <= nn && QuoteFrom(text, cc) == QuoteFrom(text, end)
    {
      end := end + 1;
    }
  }

  method ScanSpace(buffer: array<char>, cc: nat, nn: nat, ghost text: seq<char>) returns (end: nat)
    requires AgreesFrom(buffer[..], text, cc, nn)
    ensures end == SpaceFrom(text, cc)
  {
    end := cc;
    while end < nn && !IsSpace(buffer[end])
      invariant cc <= end <= nn && SpaceFrom(text, cc) == SpaceFrom(text, end)
    {
      end := end + 1;
    }
  }

  method SkipSpaces(buffer: array<char>, cc: nat, nn: nat, ghost text: seq<char>) returns (next: nat)
    requires AgreesFrom(buffer[..], text, cc, nn)
    ensures next == NonSpaceFrom(text, cc)
  {
    next := cc;
    while next < nn && IsSpace(buffer[next])
      invariant cc <= next <= nn && NonSpaceFrom(text, cc) == NonSpaceFrom(text, next)
    {
      next := next + 1;
    }
  }

  /** Where the argument at `cc` starts and ends. */
  method FindArgument(buffer: array<char>, cc: nat, nn: nat, ghost text: seq<char>) returns (start: nat, end: nat)
    requires AgreesFrom(buffer[..], text, cc, nn) && cc < nn
    ensures SliceAt(text, cc) == Slice(start, end)
  {
    start := cc;
    if buffer[cc] == QUOTE {
      start := start + 1;
      end := ScanQuote(buffer, cc + 1, nn, text);
    } else {
      end := ScanSpace(buffer, cc, nn, text);
    }
  }

  /** Cuts the argument that starts at `cc`: its terminator is the only character written. */
  method CutOne(buffer: array<char>, cc: nat, nn: nat, ghost text: seq<char>) returns (start: nat, next: nat)
    requires AgreesFrom(buffer[..], text, cc, nn) && cc < nn
    modifies buffer
    ensures start == SliceAt(text, cc).start && next == NextAt(text, cc)
    ensures var end := SliceAt(text, cc).end;
      buffer[..] == if end < nn then old(buffer[..])[end := NUL] else old(buffer[..])
  {
    var end;
    start, end := FindArgument(buffer, cc, nn, text);
    hide SliceAt, NonSpaceFrom;
    next := end;
    if next < nn {
      buffer[next] := NUL;
      next := next + 1;
    }
    next := SkipSpaces(buffer, next, nn, text);
  }

  /** One more slice cut. */
  lemma CutMore(all: seq<Slice>, jj: nat, p: nat)
    requires jj < |all|
    ensures EndsAt(all[..jj + 1], p) <==> EndsAt(all[..jj], p) || all[jj].end == p
  {
    if EndsAt(all[..jj], p) {
      var i :| 0 <= i < jj && all[..jj][i].end == p;
      assert all[..jj + 1][i].end == p;
    }
    if all[jj].end == p {
      assert all[..jj + 1][jj].end == p;
    }
  }

  /** The buffer holds the text with its first `jj` arguments terminated, untouched from `cc` on, and
      then the tail. */
  ghost predicate CutTo(buffer: seq<char>, text: seq<char>, tail: seq<char>, all: seq<Slice>, jj: nat, cc: nat) {
    && jj <= |all| && cc <= |text| && |buffer| == |text| + |tail|
    && (forall p :: 0 <= p < |text| ==> buffer[p] == if EndsAt(all[..jj], p) then NUL else text[p])
    && AgreesFrom(buffer, text, cc, |text|) && buffer[|text|..] == tail
  }

  lemma CutToNone(text: seq<char>, tail: seq<char>, all: seq<Slice>)
    ensures CutTo(text + tail, text, tail, all, 0, 0)
  {
  }

  lemma CutToRest(buffer: seq<char>, text: seq<char>, tail: seq<char>, all: seq<Slice>, jj: nat, cc: nat)
    requires CutTo(buffer, text, tail, all, jj, cc)
    ensures |buffer| == |text| + |tail| && AgreesFrom(buffer, text, cc, |text|)
  {
  }

  lemma CutToMore(
    before: seq<char>, after: seq<char>, text: seq<char>, tail: seq<char>, all: seq<Slice>, jj: nat, cc: nat)
    requires CutTo(before, text, tail, all, jj, cc) && cc < |text| && jj < |all| && all[jj] == SliceAt(text, cc)
    requires after == if all[jj].end < |text| then before[all[jj].end := NUL] else before
    ensures CutTo(after, text, tail, all, jj + 1, NextAt(text, cc))
  {
    forall p | 0 <= p < |text| ensures after[p] == if EndsAt(all[..jj + 1], p) then NUL else text[p] {
      CutMore(all, jj, p);
    }
    assert after[|text|..] == before[|text|..];
  }

  lemma CutToAll(buffer: seq<char>, text: seq<char>, tail: seq<char>, all: seq<Slice>, cc: nat)
    requires CutTo(buffer, text, tail, all, |all|, cc)
    ensures buffer == Cut(text, all) + tail
  {
    hide EndsAt, Cut;
    assert all[..|all|] == all;
    forall p | 0 <= p < |text| ensures buffer[p] == Cut(text, all)[p] {
      CutAt(text, all, p);
    }
    assert buffer == buffer[..|text|] + buffer[|text|..];
  }

  lemma NextSlice(text: seq<char>, cc: nat, all: seq<Slice>, jj: nat)
    requires cc < |text| && jj <= |all| && Slices(text, cc) == all[jj..]
    ensures jj < |all| && all[jj] == SliceAt(text, cc) && all[jj + 1..] == Slices(text, NextAt(text, cc))
  {
    assert all[jj..][0] == SliceAt(text, cc) && all[jj..][1..] == all[jj + 1..];
  }

  lemma SlicesEnd(text: seq<char>, cc: nat, all: seq<Slice>, jj: nat)
    requires cc <= |text| && jj <= |all| && Slices(text, cc) == all[jj..]
    ensures cc == |text| ==> jj == |all|
    ensures cc < |text| ==> jj < |all|
  {
  }

  /** Splits the `nn` characters before the terminator in place.  Returns how many arguments there are;
      `argv[..jj]` are their offsets and `argv[jj]` is null. */
  method Split(cmdtxt: array<char>, nn: nat, argv: array<int>) returns (jj: nat)
    requires cmdtxt.Length == 512 && nn < 512 && argv.Length == 20
    requires cmdtxt[nn] == NUL
    requires |Slices(cmdtxt[..nn], 0)| < 20
    modifies cmdtxt, argv
    ensures var text := old(cmdtxt[..nn]); var s := Slices(text, 0);
      && jj == |s| && cmdtxt[..] == Cut(text, s) + old(cmdtxt[nn..])
      && (forall i :: 0 <= i < jj ==> argv[i] == s[i].start) && argv[jj] == -1
  {
    hide Cut, CutTo, SliceAt, NextAt, Slices;
    ghost var text, tail := cmdtxt[..nn], cmdtxt[nn..];
    ghost var all := Slices(text, 0);
    assert all[0..] == all && cmdtxt[..] == text + tail;
    CutToNone(text, tail, all);
    var cc := 0;
    while IsSpace(cmdtxt[cc])
      invariant cc <= nn
      decreases nn - cc
    {
      cc := cc + 1;
    }
    jj, cc := 0, 0;
    while cc < nn && jj < MAX_ARGS
      invariant cc <= nn && jj <= |all| && Slices(text, cc) == all[jj..]
      invariant forall i :: 0 <= i < jj ==> argv[i] == all[i].start
      invariant CutTo(cmdtxt[..], text, tail, all, jj, cc)
      decreases nn - cc
    {
      ghost var before := cmdtxt[..];
      NextSlice(text, cc, all, jj);
      CutToRest(before, text, tail, all, jj, cc);
      var start, next := CutOne(cmdtxt, cc, nn, text);
      CutToMore(before, cmdtxt[..], text, tail, all, jj, cc);
      argv[jj] := start;
      jj := jj + 1;
      cc := next;
    }
    SlicesEnd(text, cc, all, jj);
    argv[jj] := -1;
    CutToAll(cmdtxt[..], text, tail, all, cc);
  }
}
