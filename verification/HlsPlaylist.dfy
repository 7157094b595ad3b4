// HLS media playlists as the scheduler sees them.
module HlsPlaylist {
  // How lines become segments, how these are numbered, where playback starts and how a number is looked up.
  import opened Helpers

  const NS_PER_SECOND: nat := 1_000_000_000
  const TARGET_AHEAD_NS: nat := 8 * NS_PER_SECOND
  const HIGH_AHEAD_NS: nat := 12 * NS_PER_SECOND
  const MINIMUM_STARTUP_SEGMENTS: nat := 2

  datatype Segment = Segment(sequence: nat, seconds: real, url: string, discontinuity: bool, key: string)

  datatype Variant = Variant(bandwidth: nat, url: string)

  // A trimmed, non-empty playlist line after its prefix has been recognised.  A
  // number that does not parse is None.
  datatype Line =
    | MediaSequence(number: Option<nat>)
    | TargetDuration(seconds: Option<real>)
    | StreamInf(bandwidth: nat)
    | ExtInf(seconds: Option<real>)
    | DiscontinuityTag
    | Key(key: string)
    | EndList
    | Uri(url: string)
    | Comment

  datatype Parse = Parse(
    master: bool, endList: bool, mediaSequence: nat, target: real,
    variants: seq<Variant>, segments: seq<Segment>,
    pendingDuration: real, pendingDiscontinuity: bool, pendingBandwidth: nat,
    nextSequence: nat, currentKey: string)

  const START := Parse(false, false, 0, 2.0, [], [], -1.0, false, 0, 0, "")

  function ParseLine(p: Parse, line: Line): Parse {
    match line
    case MediaSequence(number) =>
      var n := if number.Some? then number.value else 0;
      p.(mediaSequence := n, nextSequence := n)
    case TargetDuration(seconds) => if seconds.Some? then p.(target := seconds.value) else p
    case StreamInf(bandwidth) => p.(master := true, pendingBandwidth := bandwidth)
    case ExtInf(seconds) => p.(pendingDuration := if seconds.Some? then seconds.value else p.target)
    case DiscontinuityTag => p.(pendingDiscontinuity := true)
    case Key(key) => p.(currentKey := key)
    case EndList => p.(endList := true)
    case Comment => p
    case Uri(url) =>
      if p.pendingBandwidth != 0 || p.master then
        p.(variants := p.variants + [Variant(p.pendingBandwidth, url)], pendingBandwidth := 0)
      else if p.pendingDuration >= 0.0 then
        var seconds := if p.pendingDuration > 0.0 then p.pendingDuration else p.target;
        p.(segments := p.segments + [Segment(p.nextSequence, seconds, url, p.pendingDiscontinuity, p.currentKey)],
           nextSequence := p.nextSequence + 1, pendingDuration := -1.0, pendingDiscontinuity := false)
      else p
  }

  function ParseLines(p: Parse, lines: seq<Line>): Parse
    decreases |lines|
  {
    if lines == [] then p
    else ParseLine(ParseLines(p, lines[..|lines| - 1]), lines[|lines| - 1])
  }

  // The parsing loop with its pending state.
  method ParsePlaylist(lines: seq<Line>) returns (out: Parse)
    ensures out == ParseLines(START, lines)
  {
    var master, endList, mediaSequence, target := false, false, 0, 2.0;
    var variants: seq<Variant>, segments: seq<Segment> := [], [];
    var pendingDuration, pendingDiscontinuity, pendingBandwidth, nextSequence, currentKey := -1.0, false, 0, 0, "";
    for i := 0 to |lines|
      invariant 0 <= mediaSequence && 0 <= pendingBandwidth && 0 <= nextSequence
      invariant Parse(master, endList, mediaSequence, target, variants, segments,
                      pendingDuration, pendingDiscontinuity, pendingBandwidth, nextSequence, currentKey)
             == ParseLines(START, lines[..i])
    {
      assert lines[..i + 1][..i] == lines[..i];
      match lines[i] {
        case MediaSequence(number) =>
          mediaSequence := if number.Some? then number.value else 0;
          nextSequence := mediaSequence;
        case TargetDuration(seconds) =>
          if seconds.Some? { target := seconds.value; }
        case StreamInf(bandwidth) =>
          master := true;
          pendingBandwidth := bandwidth;
        case ExtInf(seconds) =>
          pendingDuration := if seconds.Some? then seconds.value else target;
        case DiscontinuityTag => pendingDiscontinuity := true;
        case Key(key) => currentKey := key;
        case EndList => endList := true;
        case Comment =>
        case Uri(url) =>
          if pendingBandwidth != 0 || master {
            variants := variants + [Variant(pendingBandwidth, url)];
            pendingBandwidth := 0;
          } else if pendingDuration >= 0.0 {
            var seconds := if pendingDuration > 0.0 then pendingDuration else target;
            segments := segments + [Segment(nextSequence, seconds, url, pendingDiscontinuity, currentKey)];
            nextSequence := nextSequence + 1;
            pendingDuration := -1.0;
            pendingDiscontinuity := false;
          }
      }
    }
    assert lines[..|lines|] == lines;
    out := Parse(master, endList, mediaSequence, target, variants, segments,
                 pendingDuration, pendingDiscontinuity, pendingBandwidth, nextSequence, currentKey);
  }

  // ----- Numbering -----------------------------------------------------------------

  ghost predicate Contiguous(segments: seq<Segment>) {
    forall i :: 0 <= i < |segments| ==> segments[i].sequence == segments[0].sequence + i
  }

  // No EXT-X-MEDIA-SEQUENCE after a media segment (section 4.3.3.2 of RFC 8216).
  ghost predicate SequenceTagFirst(lines: seq<Line>) {
    forall i :: 0 <= i < |lines| && lines[i].MediaSequence? ==> ParseLines(START, lines[..i]).segments == []
  }

  lemma {:induction false} SegmentsAreNumberedFromMediaSequence(lines: seq<Line>)
    requires SequenceTagFirst(lines)
    ensures var p := ParseLines(START, lines);
            && (forall i :: 0 <= i < |p.segments| ==> p.segments[i].sequence == p.mediaSequence + i)
            && p.nextSequence == p.mediaSequence + |p.segments|
    decreases |lines|
  {
    if lines != [] {
      var front := lines[..|lines| - 1];
      forall i | 0 <= i < |front| && front[i].MediaSequence?
        ensures ParseLines(START, front[..i]).segments == []
      {
        assert front[..i] == lines[..i] && front[i] == lines[i];
      }
      SegmentsAreNumberedFromMediaSequence(front);
      if lines[|lines| - 1].MediaSequence? {
        assert ParseLines(START, lines[..|lines| - 1]).segments == [];
      }
    }
  }

  // The line that adds a media segment.
  predicate AddsSegment(p: Parse, line: Line) {
    line.Uri? && p.pendingBandwidth == 0 && !p.master && p.pendingDuration >= 0.0
  }

  // The number of the last sequence tag behind the last segment, if there is one.
  function TagSinceSegment(lines: seq<Line>): Option<nat>
    decreases |lines|
  {
    if lines == [] then None
    else
      var front, line := lines[..|lines| - 1], lines[|lines| - 1];
      if line.MediaSequence? then Some(if line.number.Some? then line.number.value else 0)
      else if AddsSegment(ParseLines(START, front), line) then None
      else TagSinceSegment(front)
  }

  // If line i adds a segment behind others and a tag precedes it since the last of them, the tag
  // carries the number that is due.
  ghost predicate TagFits(lines: seq<Line>, i: nat)
    requires i < |lines|
  {
    var segments, tag := ParseLines(START, lines[..i]).segments, TagSinceSegment(lines[..i]);
    (AddsSegment(ParseLines(START, lines[..i]), lines[i]) && segments != [] && tag.Some?) ==>
      tag.value == segments[0].sequence + |segments|
  }

  ghost predicate TagsFit(lines: seq<Line>) {
    forall i :: 0 <= i < |lines| ==> TagFits(lines, i)
  }

  // The number due behind some segments and the last tag since them.
  function DueNumber(segments: seq<Segment>, tag: Option<nat>): nat {
    if tag.Some? then tag.value else if segments == [] then 0 else segments[|segments| - 1].sequence + 1
  }

  lemma NextAfterLine(p: Parse, line: Line, tag: Option<nat>)
    requires p.nextSequence == DueNumber(p.segments, tag)
    ensures var q := ParseLine(p, line);
            q.nextSequence == DueNumber(q.segments,
              if line.MediaSequence? then Some(if line.number.Some? then line.number.value else 0)
              else if AddsSegment(p, line) then None else tag)
  {
  }

  // The next number is the last tag's, or one more than the last segment's.
  lemma {:induction false} NextIsTagOrDue(lines: seq<Line>)
    ensures var p := ParseLines(START, lines);
            p.nextSequence == DueNumber(p.segments, TagSinceSegment(lines))
    decreases |lines|
  {
    if lines != [] {
      var front, line := lines[..|lines| - 1], lines[|lines| - 1];
      NextIsTagOrDue(front);
      NextAfterLine(ParseLines(START, front), line, TagSinceSegment(front));
    }
  }

  lemma ContiguousNext(segments: seq<Segment>, x: Segment)
    ensures Contiguous(segments + [x])
       <==> Contiguous(segments) && (segments != [] ==> x.sequence == segments[0].sequence + |segments|)
  {
    var all := segments + [x];
    if Contiguous(all) {
      forall i | 0 <= i < |segments| ensures segments[i].sequence == segments[0].sequence + i {
        assert all[i] == segments[i];
      }
      if segments != [] { assert all[|segments|].sequence == all[0].sequence + |segments|; }
    }
  }

  lemma ContiguousGrows(p: Parse, line: Line)
    ensures var q := ParseLine(p, line);
            if AddsSegment(p, line) then
              Contiguous(q.segments) <==>
                Contiguous(p.segments) && (p.segments != [] ==> p.nextSequence == p.segments[0].sequence + |p.segments|)
            else q.segments == p.segments
  {
    var q := ParseLine(p, line);
    if AddsSegment(p, line) { ContiguousNext(p.segments, q.segments[|p.segments|]); }
  }

  lemma TagsFitFront(front: seq<Line>, line: Line)
    ensures TagsFit(front + [line]) <==> TagsFit(front) && TagFits(front + [line], |front|)
  {
    var lines := front + [line];
    forall i | 0 <= i < |front| ensures TagFits(lines, i) <==> TagFits(front, i) {
      assert lines[..i] == front[..i] && lines[i] == front[i];
    }
  }

  // MAIN: the parsed segments are numbered without a gap exactly when the last sequence tag between
  // two of them, if there is one, carries the number then due.
  lemma {:induction false} ContiguousExactlyWhenTagsFit(lines: seq<Line>)
    ensures Contiguous(ParseLines(START, lines).segments) <==> TagsFit(lines)
    decreases |lines|
  {
    if lines != [] {
      var n := |lines| - 1;
      var front, p := lines[..n], ParseLines(START, lines[..n]);
      assert lines == front + [lines[n]];
      ContiguousExactlyWhenTagsFit(front);
      TagsFitFront(front, lines[n]);
      ContiguousGrows(p, lines[n]);
      if AddsSegment(p, lines[n]) && Contiguous(p.segments) { NextIsTagOrDue(front); }
    }
  }

  // A tag between two segments breaks the numbering.
  lemma RenumberingIsNotContiguous()
    ensures var lines := [ExtInf(Some(4.0)), Uri("a"), MediaSequence(Some(9)), ExtInf(Some(4.0)), Uri("b")];
            !Contiguous(ParseLines(START, lines).segments)
  {
    var p1 := ParseLine(START, ExtInf(Some(4.0)));
    var p2 := ParseLine(p1, Uri("a"));
    var p3 := ParseLine(p2, MediaSequence(Some(9)));
    var p4 := ParseLine(p3, ExtInf(Some(4.0)));
    var p5 := ParseLine(p4, Uri("b"));
    assert p5.segments[0].sequence == 0 && p5.segments[1].sequence == 9;
    var l1 := [] + [ExtInf(Some(4.0))];
    var l2 := l1 + [Uri("a")];
    var l3 := l2 + [MediaSequence(Some(9))];
    var l4 := l3 + [ExtInf(Some(4.0))];
    ParseNext([], ExtInf(Some(4.0)));
    ParseNext(l1, Uri("a"));
    ParseNext(l2, MediaSequence(Some(9)));
    ParseNext(l3, ExtInf(Some(4.0)));
    ParseNext(l4, Uri("b"));
    assert l4 + [Uri("b")] == [ExtInf(Some(4.0)), Uri("a"), MediaSequence(Some(9)), ExtInf(Some(4.0)), Uri("b")];
  }

  lemma ParseNext(lines: seq<Line>, x: Line)
    ensures ParseLines(START, lines + [x]) == ParseLine(ParseLines(START, lines), x)
  {
    assert (lines + [x])[..|lines|] == lines;
  }

  // Positive target durations give positive segment durations, whatever EXTINF says.
  lemma {:induction false} DurationsArePositive(lines: seq<Line>)
    requires forall i :: 0 <= i < |lines| && lines[i].TargetDuration? && lines[i].seconds.Some? ==>
               lines[i].seconds.value > 0.0
    ensures var p := ParseLines(START, lines);
            p.target > 0.0 && forall i :: 0 <= i < |p.segments| ==> p.segments[i].seconds > 0.0
    decreases |lines|
  {
    if lines != [] {
      DurationsArePositive(lines[..|lines| - 1]);
    }
  }

  // ----- Printed playlists come back -----------------------------------------------------

  lemma {:induction false} ParseConcat(p: Parse, a: seq<Line>, b: seq<Line>)
    ensures ParseLines(p, a + b) == ParseLines(ParseLines(p, a), b)
    decreases |b|
  {
    if b == [] {
      assert a + b == a;
    } else {
      var front, last := b[..|b| - 1], b[|b| - 1];
      assert (a + b)[..|a + b| - 1] == a + front && (a + b)[|a + b| - 1] == last;
      ParseConcat(p, a, front);
    }
  }

  lemma ParseOne(p: Parse, x: Line)
    ensures ParseLines(p, [x]) == ParseLine(p, x)
  {
    assert [x][..0] == [];
  }

  // A media segment to be printed, with or without a key line of its own.
  datatype Item = Item(seconds: real, url: string, discontinuity: bool, key: string, keyLine: bool)

  function KeyLines(x: Item): seq<Line> { if x.keyLine then [Key(x.key)] else [] }

  function MarkLines(x: Item): seq<Line> { if x.discontinuity then [DiscontinuityTag] else [] }

  function ItemLines(x: Item): seq<Line> {
    KeyLines(x) + MarkLines(x) + [ExtInf(Some(x.seconds)), Uri(x.url)]
  }

  function AllItemLines(items: seq<Item>): seq<Line>
    decreases |items|
  {
    if items == [] then [] else AllItemLines(items[..|items| - 1]) + ItemLines(items[|items| - 1])
  }

  // The key in force behind some items; an item without a key line must have the one before it.
  function LastKey(items: seq<Item>): string {
    if items == [] then "" else items[|items| - 1].key
  }

  predicate Printable(items: seq<Item>) {
    forall i :: 0 <= i < |items| ==>
      items[i].seconds > 0.0 && (items[i].keyLine || items[i].key == LastKey(items[..i]))
  }

  function Printed(first: nat, target: real, items: seq<Item>, ended: bool): seq<Line> {
    [MediaSequence(Some(first)), TargetDuration(Some(target))] + AllItemLines(items) + if ended then [EndList] else []
  }

  // Between two segments of a media playlist.
  predicate AtRest(p: Parse) {
    !p.master && p.pendingBandwidth == 0 && p.pendingDuration < 0.0 && !p.pendingDiscontinuity
  }

  lemma ParseTwo(p: Parse, x: Line, y: Line)
    ensures ParseLines(p, [x, y]) == ParseLine(ParseLine(p, x), y)
  {
    assert [x, y] == [x] + [y];
    ParseOne(p, x);
    ParseOne(ParseLine(p, x), y);
    ParseConcat(p, [x], [y]);
  }

  lemma KeyLinesComeBack(p: Parse, x: Item)
    requires x.keyLine || x.key == p.currentKey
    ensures ParseLines(p, KeyLines(x)) == p.(currentKey := x.key)
  {
    ParseOne(p, Key(x.key));
  }

  lemma MarkLinesComeBack(p: Parse, x: Item)
    requires !p.pendingDiscontinuity
    ensures ParseLines(p, MarkLines(x)) == p.(pendingDiscontinuity := x.discontinuity)
  {
    ParseOne(p, DiscontinuityTag);
  }

  // The state behind an item.
  function WithItem(p: Parse, x: Item): Parse {
    p.(segments := p.segments + [Segment(p.nextSequence, x.seconds, x.url, x.discontinuity, x.key)],
       nextSequence := p.nextSequence + 1, currentKey := x.key, pendingDuration := -1.0, pendingDiscontinuity := false)
  }

  lemma ItemComesBack(p: Parse, x: Item)
    requires AtRest(p) && x.seconds > 0.0 && (x.keyLine || x.key == p.currentKey)
    ensures ParseLines(p, ItemLines(x)) == WithItem(p, x)
  {
    var p1 := p.(currentKey := x.key);
    KeyLinesComeBack(p, x);
    MarkLinesComeBack(p1, x);
    ParseTwo(p1.(pendingDiscontinuity := x.discontinuity), ExtInf(Some(x.seconds)), Uri(x.url));
    ParseThree(p, KeyLines(x), MarkLines(x), [ExtInf(Some(x.seconds)), Uri(x.url)]);
  }

  lemma ParseThree(p: Parse, a: seq<Line>, b: seq<Line>, c: seq<Line>)
    ensures ParseLines(p, a + b + c) == ParseLines(ParseLines(ParseLines(p, a), b), c)
  {
    ParseConcat(p, a + b, c);
    ParseConcat(p, a, b);
  }

  // The items are the segments, numbered from `first`.
  ghost predicate SegmentsAre(segments: seq<Segment>, first: nat, items: seq<Item>) {
    && |segments| == |items|
    && forall i :: 0 <= i < |items| ==>
         segments[i] == Segment(first + i, items[i].seconds, items[i].url, items[i].discontinuity, items[i].key)
  }

  // What reading some items from p on has come to.
  ghost predicate ItemsRead(p: Parse, q: Parse, items: seq<Item>) {
    && AtRest(q) && SegmentsAre(q.segments, p.nextSequence, items)
    && q.nextSequence == p.nextSequence + |items| && q.currentKey == LastKey(items)
    && q.target == p.target && q.mediaSequence == p.mediaSequence
    && q.variants == p.variants && q.endList == p.endList
  }

  lemma ItemsReadGrow(p: Parse, q: Parse, items: seq<Item>, x: Item)
    requires ItemsRead(p, q, items)
    ensures ItemsRead(p, WithItem(q, x), items + [x])
  {
  }

  lemma {:induction false} ItemsComeBack(p: Parse, items: seq<Item>)
    requires AtRest(p) && p.segments == [] && p.currentKey == "" && Printable(items)
    ensures ItemsRead(p, ParseLines(p, AllItemLines(items)), items)
    decreases |items|
  {
    if items != [] {
      var front, last := items[..|items| - 1], items[|items| - 1];
      FrontIsPrintable(items, front);
      ItemsComeBack(p, front);
      NextItemComesBack(p, ParseLines(p, AllItemLines(front)), front, last, items);
    } else {
      assert AllItemLines(items) == [];
    }
  }

  lemma FrontIsPrintable(items: seq<Item>, front: seq<Item>)
    requires items != [] && front == items[..|items| - 1] && Printable(items)
    ensures Printable(front)
    ensures var last := items[|items| - 1]; last.seconds > 0.0 && (last.keyLine || last.key == LastKey(front))
  {
    assert forall i :: 0 <= i < |front| ==> front[..i] == items[..i];
  }

  lemma {:induction false} NextItemComesBack(p: Parse, q: Parse, front: seq<Item>, x: Item, items: seq<Item>)
    requires q == ParseLines(p, AllItemLines(front)) && ItemsRead(p, q, front)
    requires x.seconds > 0.0 && (x.keyLine || x.key == LastKey(front))
    requires |items| == |front| + 1 && items[..|front|] == front && items[|front|] == x
    ensures ItemsRead(p, ParseLines(p, AllItemLines(items)), items)
  {
    assert items == front + [x];
    assert AllItemLines(items) == AllItemLines(front) + ItemLines(x);
    ParseConcat(p, AllItemLines(front), ItemLines(x));
    ItemComesBack(q, x);
    ItemsReadGrow(p, q, front, x);
  }

  // MAIN: parsing a printed media playlist gives exactly its segments, numbered from the media
  // sequence, with their durations, addresses, keys and discontinuity marks.
  lemma PrintedPlaylistComesBack(first: nat, target: real, items: seq<Item>, ended: bool)
    requires Printable(items)
    ensures var p := ParseLines(START, Printed(first, target, items, ended));
            && SegmentsAre(p.segments, first, items)
            && p.mediaSequence == first && p.target == target && p.endList == ended && !p.master && p.variants == []
  {
    var p0 := START.(mediaSequence := first, nextSequence := first, target := target);
    ParseTwo(START, MediaSequence(Some(first)), TargetDuration(Some(target)));
    ItemsComeBack(p0, items);
    ParseOne(ParseLines(p0, AllItemLines(items)), EndList);
    ParseThree(START, [MediaSequence(Some(first)), TargetDuration(Some(target))], AllItemLines(items),
               if ended then [EndList] else []);
  }

  // The last readable target duration, or the default of two seconds.
  function TargetInForce(lines: seq<Line>): real
    decreases |lines|
  {
    if lines == [] then 2.0
    else
      var last := lines[|lines| - 1];
      if last.TargetDuration? && last.seconds.Some? then last.seconds.value
      else TargetInForce(lines[..|lines| - 1])
  }

  lemma {:induction false} TargetIsInForce(lines: seq<Line>)
    ensures ParseLines(START, lines).target == TargetInForce(lines)
    decreases |lines|
  {
    if lines != [] { TargetIsInForce(lines[..|lines| - 1]); }
  }

  // MAIN: in a media playlist an EXTINF and an address add a segment exactly when the duration is not
  // negative; it has that duration, or the target then in force if it is zero or cannot be read.
  lemma DurationIsExtInfOrTarget(lines: seq<Line>, seconds: Option<real>, url: string)
    requires var p := ParseLines(START, lines); !p.master && p.pendingBandwidth == 0
    ensures var p, q := ParseLines(START, lines), ParseLines(START, lines + [ExtInf(seconds), Uri(url)]);
            var target := TargetInForce(lines);
            var readable := seconds.Some?;
            if (readable && seconds.value < 0.0) || (!readable && target < 0.0) then q.segments == p.segments
            else q.segments == p.segments + [Segment(p.nextSequence,
                   if readable && seconds.value > 0.0 then seconds.value else target,
                   url, p.pendingDiscontinuity, p.currentKey)]
  {
    TargetIsInForce(lines);
    assert lines + [ExtInf(seconds), Uri(url)] == lines + [ExtInf(seconds)] + [Uri(url)];
    ParseNext(lines, ExtInf(seconds));
    ParseNext(lines + [ExtInf(seconds)], Uri(url));
  }

  // ----- Printed master playlists --------------------------------------------------------

  function VariantLines(variants: seq<Variant>): seq<Line>
    decreases |variants|
  {
    if variants == [] then []
    else
      var last := variants[|variants| - 1];
      VariantLines(variants[..|variants| - 1]) + [StreamInf(last.bandwidth), Uri(last.url)]
  }

  // The state behind some variants.
  function WithVariants(variants: seq<Variant>): Parse {
    START.(variants := variants, master := variants != [])
  }

  lemma VariantComesBack(variants: seq<Variant>, v: Variant)
    ensures ParseLine(ParseLine(WithVariants(variants), StreamInf(v.bandwidth)), Uri(v.url))
         == WithVariants(variants + [v])
  {
  }

  // A master playlist gives its variants in order and no segments.
  lemma {:induction false} VariantsComeBack(variants: seq<Variant>)
    ensures ParseLines(START, VariantLines(variants)) == WithVariants(variants)
    decreases |variants|
  {
    if variants != [] {
      var front, v := variants[..|variants| - 1], variants[|variants| - 1];
      VariantsComeBack(front);
      VariantComesBack(front, v);
      ParseTwo(WithVariants(front), StreamInf(v.bandwidth), Uri(v.url));
      ParseConcat(START, VariantLines(front), [StreamInf(v.bandwidth), Uri(v.url)]);
      assert variants == front + [v];
    }
  }

  // ----- Looking a number up -----------------------------------------------------------

  predicate Has(segments: seq<Segment>, sequence: nat) {
    exists i :: 0 <= i < |segments| && segments[i].sequence == sequence
  }

  function IndexOf(segments: seq<Segment>, sequence: nat): (i: nat)
    requires Has(segments, sequence)
    ensures i < |segments| && segments[i].sequence == sequence
    ensures forall j :: 0 <= j < i ==> segments[j].sequence != sequence
  {
    if segments[0].sequence == sequence then 0
    else
      assert Has(segments[1..], sequence) by {
        var i :| 0 <= i < |segments| && segments[i].sequence == sequence;
        assert segments[1..][i - 1].sequence == sequence;
      }
      1 + IndexOf(segments[1..], sequence)
  }

  method FindSegmentIndex(segments: seq<Segment>, sequence: nat) returns (index: Option<nat>)
    ensures index.Some? <==> Has(segments, sequence)
    ensures index.Some? ==> index.value == IndexOf(segments, sequence)
  {
    for i := 0 to |segments|
      invariant forall j :: 0 <= j < i ==> segments[j].sequence != sequence
    {
      if segments[i].sequence == sequence { return Some(i); }
    }
    index := None;
  }

  // In a contiguous playlist a number is missing only beyond one of the two ends.
  lemma MissingOnlyOutside(segments: seq<Segment>, sequence: nat)
    requires Contiguous(segments) && segments != []
    ensures Has(segments, sequence)
       <==> segments[0].sequence <= sequence <= segments[|segments| - 1].sequence
  {
    if segments[0].sequence <= sequence <= segments[|segments| - 1].sequence {
      assert segments[sequence - segments[0].sequence].sequence == sequence;
    }
  }

  // ----- Where playback starts -----------------------------------------------------------

  // Media seconds from segment k to the live edge.
  function Tail(segments: seq<Segment>, k: nat): real
    requires k <= |segments|
    decreases |segments| - k
  {
    if k == |segments| then 0.0 else Tail(segments, k + 1) + segments[k].seconds
  }

  function Ns(seconds: real): real { seconds * (NS_PER_SECOND as real) }

  // The backward walk from the live edge: segments from `start` on are taken, i is
  // the next candidate's upper neighbour.
  function WalkBack(segments: seq<Segment>, i: nat, duration: real, count: nat, start: nat): (k: nat)
    requires i <= |segments| && start < |segments|
    ensures k < |segments|
    decreases i
  {
    if i == 0 then start
    else
      var candidate := duration + segments[i - 1].seconds;
      if count >= MINIMUM_STARTUP_SEGMENTS && Ns(candidate) > HIGH_AHEAD_NS as real then start
      else if count + 1 >= MINIMUM_STARTUP_SEGMENTS && Ns(candidate) >= TARGET_AHEAD_NS as real then i - 1
      else WalkBack(segments, i - 1, candidate, count + 1, i - 1)
  }

  function StartupIndex(segments: seq<Segment>): (k: nat)
    requires segments != []
    ensures k < |segments|
  {
    WalkBack(segments, |segments|, 0.0, 0, |segments| - 1)
  }

  // What the walk is for: at least two segments if there are two; beyond two,
  // never more than HIGH and never one that is not needed to reach TARGET; and it
  // stops short of TARGET only when the list is exhausted or HIGH would be passed.
  ghost predicate IsStartupPoint(segments: seq<Segment>, k: nat) {
    && k < |segments|
    && var n := |segments| - k;
    && (n >= MINIMUM_STARTUP_SEGMENTS || k == 0)
    && (n > MINIMUM_STARTUP_SEGMENTS ==> Ns(Tail(segments, k)) <= HIGH_AHEAD_NS as real)
    && (n > MINIMUM_STARTUP_SEGMENTS ==> Ns(Tail(segments, k + 1)) < TARGET_AHEAD_NS as real)
    && (k > 0 ==> Ns(Tail(segments, k)) >= TARGET_AHEAD_NS as real || Ns(Tail(segments, k - 1)) > HIGH_AHEAD_NS as real)
  }

  lemma {:induction false} WalkFindsStartupPoint(segments: seq<Segment>, i: nat)
    requires segments != [] && i <= |segments|
    requires i < |segments| && |segments| - i >= MINIMUM_STARTUP_SEGMENTS ==>
               Ns(Tail(segments, i)) < TARGET_AHEAD_NS as real
    requires |segments| - i > MINIMUM_STARTUP_SEGMENTS ==> Ns(Tail(segments, i)) <= HIGH_AHEAD_NS as real
    requires |segments| - i > MINIMUM_STARTUP_SEGMENTS ==> Ns(Tail(segments, i + 1)) < TARGET_AHEAD_NS as real
    ensures IsStartupPoint(segments,
              WalkBack(segments, i, Tail(segments, i), |segments| - i, if i == |segments| then i - 1 else i))
    decreases i
  {
    if i > 0 {
      var candidate := Tail(segments, i - 1);
      assert candidate == Tail(segments, i) + segments[i - 1].seconds;
      var count := |segments| - i;
      if count >= MINIMUM_STARTUP_SEGMENTS && Ns(candidate) > HIGH_AHEAD_NS as real {
      } else if count + 1 >= MINIMUM_STARTUP_SEGMENTS && Ns(candidate) >= TARGET_AHEAD_NS as real {
      } else {
        WalkFindsStartupPoint(segments, i - 1);
      }
    }
  }

  lemma StartupIndexIsStartupPoint(segments: seq<Segment>)
    requires segments != []
    ensures IsStartupPoint(segments, StartupIndex(segments))
  {
    WalkFindsStartupPoint(segments, |segments|);
  }

  function ChooseStartup(segments: seq<Segment>): nat
    requires segments != []
  {
    segments[StartupIndex(segments)].sequence
  }

  method ChooseStartupSequence(segments: seq<Segment>, mediaSequence: nat) returns (sequence: nat)
    ensures segments == [] ==> sequence == mediaSequence
    ensures segments != [] ==> sequence == ChooseStartup(segments)
  {
    if segments == [] { return mediaSequence; }
    var duration, count, start, i := 0.0, 0, |segments| - 1, |segments|;
    while i > 0
      invariant 0 <= i <= |segments| && 0 <= start < |segments| && 0 <= count
      invariant StartupIndex(segments) == WalkBack(segments, i, duration, count, start)
    {
      i := i - 1;
      var candidate := duration + segments[i].seconds;
      if count >= MINIMUM_STARTUP_SEGMENTS && Ns(candidate) > HIGH_AHEAD_NS as real { break; }
      duration := candidate;
      start := i;
      count := count + 1;
      if count >= MINIMUM_STARTUP_SEGMENTS && Ns(duration) >= TARGET_AHEAD_NS as real { break; }
    }
    sequence := segments[start].sequence;
  }
}
