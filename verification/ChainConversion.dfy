/** Conversion of proxy links: chains are converted from right to left, each link dialling through the next. */
module ChainConversion {
  import opened Wrappers
  import opened Decimal

  /** A converted link: an outbound or endpoint, its own tag, and whether it takes dialer options. */
  datatype Link = Link(endpoint: bool, tag: string, dials: bool)

  /** `detour` is None for an element without dialer options. */
  datatype Element = Element(endpoint: bool, tag: string, detour: Option<string>)

  /** The readers of the input: how a line splits into links, and what a link converts to. */
  datatype Reader = Reader(split: string -> seq<string>, parse: string -> Option<Link>)

  /** An element together with the line and link it came from. */
  datatype Placed = Placed(line: nat, link: nat, element: Element)

  const MARK := " § "

  function Tag(tag: string, counter: nat): string {
    tag + MARK + Numeral(counter)
  }

  predicate Skipped(line: string) {
    |line| < 5 || line[0] == '#' || line[0] == '/'
  }

  // ------------------------------------------------------------ specification

  function TagBefore(placed: seq<Placed>): string {
    if |placed| == 0 then "" else placed[|placed| - 1].element.tag
  }

  function Convert(link: Link, counter: nat, detour: string): Element {
    Element(link.endpoint, Tag(link.tag, counter), if link.dials then Some(detour) else None)
  }

  /** What the links from i on convert to, rightmost first; the first gets number `start`. */
  function FromLink(r: Reader, links: seq<string>, i: nat, line: nat, start: nat): seq<Placed>
    requires i <= |links|
    decreases |links| - i
  {
    if i == |links| then []
    else
      var right := FromLink(r, links, i + 1, line, start);
      match r.parse(links[i])
      case None => right
      case Some(link) => right + [Placed(line, i, Convert(link, start + |right|, TagBefore(right)))]
  }

  function OfLine(r: Reader, text: string, line: nat, start: nat): seq<Placed> {
    if Skipped(text) then [] else FromLink(r, r.split(text), 0, line, start)
  }

  /** What the first n lines convert to, in order. */
  function All(r: Reader, lines: seq<string>, n: nat): seq<Placed>
    requires n <= |lines|
  {
    if n == 0 then [] else All(r, lines, n - 1) + OfLine(r, lines[n - 1], n - 1, |All(r, lines, n - 1)|)
  }

  function Select(placed: seq<Placed>, endpoint: bool): seq<Element> {
    if |placed| == 0 then []
    else
      var last := placed[|placed| - 1].element;
      Select(placed[..|placed| - 1], endpoint) + if last.endpoint == endpoint then [last] else []
  }

  // -------------------------------------------------------------- the program

  /** Too short for a link, or a comment. */
  method IsSkipped(line: string) returns (skipped: bool)
    ensures skipped <==> Skipped(line)
  {
    return |line| < 5 || line[0] == '#' || line[0] == '/';
  }

  lemma AllNext(r: Reader, lines: seq<string>, n: nat)
    requires n < |lines|
    ensures All(r, lines, n + 1) ==
            if Skipped(lines[n]) then All(r, lines, n)
            else All(r, lines, n) + FromLink(r, r.split(lines[n]), 0, n, |All(r, lines, n)|)
  {
  }

  /** Outbounds and endpoints, or None if nothing converts. */
  method Generate(r: Reader, lines: seq<string>) returns (result: Option<(seq<Element>, seq<Element>)>)
    ensures result.None? <==> All(r, lines, |lines|) == []
    ensures result.Some? ==>
              result.value == (Select(All(r, lines, |lines|), false), Select(All(r, lines, |lines|), true))
  {
    var outbounds: seq<Element>, endpoints: seq<Element>, counter := [], [], 0;
    for n := 0 to |lines|
      invariant counter == |All(r, lines, n)|
      invariant outbounds == Select(All(r, lines, n), false) && endpoints == Select(All(r, lines, n), true)
    {
      AllNext(r, lines, n);
      var skipped := IsSkipped(lines[n]);
      if !skipped {
        outbounds, endpoints, counter :=
          GenerateChain(r, r.split(lines[n]), n, All(r, lines, n), outbounds, endpoints, counter);
      }
    }
    SelectEmpty(All(r, lines, |lines|));
    if |outbounds| == 0 && |endpoints| == 0 {
      return None;
    }
    return Some((outbounds, endpoints));
  }

  method GenerateChain(r: Reader, links: seq<string>, ghost line: nat, ghost before: seq<Placed>,
                       outbounds0: seq<Element>, endpoints0: seq<Element>, counter0: nat)
    returns (outbounds: seq<Element>, endpoints: seq<Element>, counter: nat)
    requires counter0 == |before| && outbounds0 == Select(before, false) && endpoints0 == Select(before, true)
    ensures var after := before + FromLink(r, links, 0, line, |before|);
            counter == |after| && outbounds == Select(after, false) && endpoints == Select(after, true)
  {
    outbounds, endpoints, counter := outbounds0, endpoints0, counter0;
    var detour := "";
    var i := |links|;
    assert before + [] == before;
    while i > 0
      invariant 0 <= i <= |links|
      invariant ChainAt(r, links, i, line, before, outbounds, endpoints, counter, detour)
    {
      i := i - 1;
      ChainNext(r, links, i, line, before, outbounds, endpoints, counter, detour);
      var link := r.parse(links[i]);
      if link.Some? {
        var tag := link.value.tag + " § " + Numeral(counter);
        var element := Element(link.value.endpoint, tag, if link.value.dials then Some(detour) else None);
        if element.endpoint {
          endpoints := endpoints + [element];
        } else {
          outbounds := outbounds + [element];
        }
        detour := element.tag;
        counter := counter + 1;
      }
    }
  }

  /** What the loop holds once the links from i on have been converted. */
  predicate ChainAt(r: Reader, links: seq<string>, i: nat, line: nat, before: seq<Placed>,
                    outbounds: seq<Element>, endpoints: seq<Element>, counter: nat, detour: string)
    requires i <= |links|
  {
    var done := FromLink(r, links, i, line, |before|);
    counter == |before| + |done| && detour == TagBefore(done) && Emitted(before + done, outbounds, endpoints)
  }

  lemma ChainNext(r: Reader, links: seq<string>, i: nat, line: nat, before: seq<Placed>,
                  outbounds: seq<Element>, endpoints: seq<Element>, counter: nat, detour: string)
    requires i < |links| && ChainAt(r, links, i + 1, line, before, outbounds, endpoints, counter, detour)
    ensures match r.parse(links[i])
            case None => ChainAt(r, links, i, line, before, outbounds, endpoints, counter, detour)
            case Some(link) =>
              var e := Convert(link, counter, detour);
              if e.endpoint then ChainAt(r, links, i, line, before, outbounds, endpoints + [e], counter + 1, e.tag)
              else ChainAt(r, links, i, line, before, outbounds + [e], endpoints, counter + 1, e.tag)
  {
    if r.parse(links[i]).Some? {
      var done := FromLink(r, links, i + 1, line, |before|);
      var placed := Placed(line, i, Convert(r.parse(links[i]).value, counter, detour));
      EmittedNext(before, done, placed, outbounds, endpoints);
      assert FromLink(r, links, i, line, |before|) == done + [placed];
    }
  }

  predicate Emitted(all: seq<Placed>, outbounds: seq<Element>, endpoints: seq<Element>) {
    outbounds == Select(all, false) && endpoints == Select(all, true)
  }

  lemma EmittedNext(before: seq<Placed>, done: seq<Placed>, placed: Placed, outbounds: seq<Element>,
                    endpoints: seq<Element>)
    requires Emitted(before + done, outbounds, endpoints)
    ensures if placed.element.endpoint then Emitted(before + (done + [placed]), outbounds, endpoints + [placed.element])
            else Emitted(before + (done + [placed]), outbounds + [placed.element], endpoints)
  {
    SelectSnoc(before + done, placed);
    assert before + (done + [placed]) == (before + done) + [placed];
  }

  lemma SelectSnoc(placed: seq<Placed>, last: Placed)
    ensures forall endpoint :: Select(placed + [last], endpoint) ==
              Select(placed, endpoint) + if last.element.endpoint == endpoint then [last.element] else []
  {
    assert (placed + [last])[..|placed|] == placed;
  }

  lemma SelectEmpty(placed: seq<Placed>)
    ensures placed == [] <==> Select(placed, false) == [] && Select(placed, true) == []
  {
  }

  // --------------------------------------------------------------- properties

  predicate Unspaced(s: string) {
    forall i :: 0 <= i < |s| ==> s[i] != ' '
  }

  lemma {:induction false} NumeralUnspaced(n: nat)
    ensures Unspaced(Numeral(n))
  {
    if n >= 10 {
      NumeralUnspaced(n / 10);
    }
  }

  /** Numbered tags are different whatever the tags themselves are, even if those contain the mark. */
  lemma TagInjective(a: string, b: string, m: nat, n: nat)
    requires Tag(a, m) == Tag(b, n)
    ensures m == n
  {
    var x, y, t := Numeral(m), Numeral(n), Tag(a, m);
    NumeralUnspaced(m);
    NumeralUnspaced(n);
    assert t[|t| - |x| - 1] == ' ' && t[|t| - |y| - 1] == ' ';
    assert t[|t| - |x|..] == x && t[|t| - |y|..] == y;
    assert |x| == |y|;
    NumeralInjective(m, n);
  }

  /** The element is converted from its link and carries its number. */
  predicate Converted(r: Reader, links: seq<string>, p: Placed, number: nat) {
    && p.link < |links| && r.parse(links[p.link]).Some?
    && var link := r.parse(links[p.link]).value;
       p.element.endpoint == link.endpoint && p.element.tag == Tag(link.tag, number) &&
       (p.element.detour.Some? <==> link.dials)
  }

  /** No link strictly between two positions converts. */
  predicate Gap(r: Reader, links: seq<string>, from: int, to: int) {
    forall i :: 0 <= i < |links| && from < i < to ==> r.parse(links[i]).None?
  }

  predicate DialsThrough(p: Placed, detour: string) {
    p.element.detour.Some? ==> p.element.detour.value == detour
  }

  /**
   The element dials directly if nothing right of it on its line converts, and otherwise through
   the element converted just before it, which is the nearest to its right.
   */
  predicate Linked(r: Reader, links: seq<string>, right: Option<Placed>, p: Placed) {
    match right
    case None => Gap(r, links, p.link, |links|) && DialsThrough(p, "")
    case Some(q) => p.link < q.link && Gap(r, links, p.link, q.link) && DialsThrough(p, q.element.tag)
  }

  /** The element converted before the k-th one on the same line. */
  function Right(all: seq<Placed>, k: nat): Option<Placed>
    requires k < |all|
  {
    if k > 0 && all[k - 1].line == all[k].line then Some(all[k - 1]) else None
  }

  predicate SegmentSound(r: Reader, links: seq<string>, segment: seq<Placed>, line: nat, start: nat) {
    forall k :: 0 <= k < |segment| ==>
      segment[k].line == line && Converted(r, links, segment[k], start + k) &&
      Linked(r, links, Right(segment, k), segment[k])
  }

  function Leftmost(links: seq<string>, segment: seq<Placed>): nat {
    if |segment| == 0 then |links| else segment[|segment| - 1].link
  }

  lemma SegmentSnoc(r: Reader, links: seq<string>, segment: seq<Placed>, line: nat, start: nat, i: nat)
    requires SegmentSound(r, links, segment, line, start)
    requires i < Leftmost(links, segment) <= |links| && Gap(r, links, i, Leftmost(links, segment)) &&
             r.parse(links[i]).Some?
    ensures var placed := Placed(line, i, Convert(r.parse(links[i]).value, start + |segment|, TagBefore(segment)));
            SegmentSound(r, links, segment + [placed], line, start)
  {
    var p := Placed(line, i, Convert(r.parse(links[i]).value, start + |segment|, TagBefore(segment)));
    NewIsConverted(r, links, segment, line, start, i);
    NewIsLinked(r, links, segment, line, start, i);
    SegmentAppend(r, links, segment, line, start, p);
  }

  /** What stands at the end of the segment so far. */
  function Latest(segment: seq<Placed>): Option<Placed> {
    if |segment| == 0 then None else Some(segment[|segment| - 1])
  }

  lemma SegmentAppend(r: Reader, links: seq<string>, segment: seq<Placed>, line: nat, start: nat, p: Placed)
    requires SegmentSound(r, links, segment, line, start)
    requires p.line == line && Converted(r, links, p, start + |segment|) && Linked(r, links, Latest(segment), p)
    ensures SegmentSound(r, links, segment + [p], line, start)
  {
    var more := segment + [p];
    forall k | 0 <= k < |more|
      ensures more[k].line == line && Converted(r, links, more[k], start + k) &&
              Linked(r, links, Right(more, k), more[k])
    {
      if k < |segment| {
        assert more[k] == segment[k] && Right(more, k) == Right(segment, k);
      } else {
        assert Right(more, k) == Latest(segment);
      }
    }
  }

  lemma NewIsConverted(r: Reader, links: seq<string>, segment: seq<Placed>, line: nat, start: nat, i: nat)
    requires i < |links| && r.parse(links[i]).Some?
    ensures var placed := Placed(line, i, Convert(r.parse(links[i]).value, start + |segment|, TagBefore(segment)));
            Converted(r, links, placed, start + |segment|)
  {
  }

  lemma NewIsLinked(r: Reader, links: seq<string>, segment: seq<Placed>, line: nat, start: nat, i: nat)
    requires i < |links| && r.parse(links[i]).Some?
    requires i < Leftmost(links, segment) && Gap(r, links, i, Leftmost(links, segment))
    ensures Linked(r, links, Latest(segment),
                   Placed(line, i, Convert(r.parse(links[i]).value, start + |segment|, TagBefore(segment))))
  {
  }

  /** Everything left of the leftmost converted link, down to i, fails. */
  lemma {:induction false} FromLinkGap(r: Reader, links: seq<string>, i: nat, line: nat, start: nat)
    requires i <= |links|
    ensures var leftmost := Leftmost(links, FromLink(r, links, i, line, start));
            i <= leftmost <= |links| && Gap(r, links, i - 1, leftmost)
    decreases |links| - i
  {
    if i < |links| {
      FromLinkGap(r, links, i + 1, line, start);
    }
  }

  lemma {:induction false} FromLinkSound(r: Reader, links: seq<string>, i: nat, line: nat, start: nat)
    requires i <= |links|
    ensures SegmentSound(r, links, FromLink(r, links, i, line, start), line, start)
    decreases |links| - i
  {
    if i < |links| {
      FromLinkSound(r, links, i + 1, line, start);
      if r.parse(links[i]).Some? {
        FromLinkGap(r, links, i + 1, line, start);
        SegmentSnoc(r, links, FromLink(r, links, i + 1, line, start), line, start, i);
      }
    }
  }

  predicate AllSound(r: Reader, lines: seq<string>, n: nat, all: seq<Placed>)
    requires n <= |lines|
  {
    forall k :: 0 <= k < |all| ==>
      && all[k].line < n && !Skipped(lines[all[k].line])
      && Converted(r, r.split(lines[all[k].line]), all[k], k)
      && Linked(r, r.split(lines[all[k].line]), Right(all, k), all[k])
  }

  lemma AppendSound(r: Reader, lines: seq<string>, n: nat, before: seq<Placed>, segment: seq<Placed>)
    requires n < |lines| && !Skipped(lines[n]) && AllSound(r, lines, n, before)
    requires SegmentSound(r, r.split(lines[n]), segment, n, |before|)
    ensures AllSound(r, lines, n + 1, before + segment)
  {
    var all := before + segment;
    forall k | 0 <= k < |all|
      ensures all[k].line < n + 1 && !Skipped(lines[all[k].line])
      ensures Converted(r, r.split(lines[all[k].line]), all[k], k)
      ensures Linked(r, r.split(lines[all[k].line]), Right(all, k), all[k])
    {
      if k < |before| {
        assert all[k] == before[k] && Right(all, k) == Right(before, k);
      } else {
        var j := k - |before|;
        assert all[k] == segment[j] && Right(all, k) == Right(segment, j);
      }
    }
  }

  lemma {:induction false} AllIsSound(r: Reader, lines: seq<string>, n: nat)
    requires n <= |lines|
    ensures AllSound(r, lines, n, All(r, lines, n))
  {
    if n == 0 {
    } else {
      AllIsSound(r, lines, n - 1);
      var before := All(r, lines, n - 1);
      if !Skipped(lines[n - 1]) {
        FromLinkSound(r, r.split(lines[n - 1]), 0, n - 1, |before|);
        var segment := FromLink(r, r.split(lines[n - 1]), 0, n - 1, |before|);
        AppendSound(r, lines, n - 1, before, segment);
        assert All(r, lines, n) == before + segment;
      } else {
        assert All(r, lines, n) == before;
      }
    }
  }

  /** All tags, of outbounds and endpoints together, are different. */
  lemma TagsAreDistinct(r: Reader, lines: seq<string>, i: nat, j: nat)
    requires i < j < |All(r, lines, |lines|)|
    ensures All(r, lines, |lines|)[i].element.tag != All(r, lines, |lines|)[j].element.tag
  {
    AllIsSound(r, lines, |lines|);
    var all := All(r, lines, |lines|);
    var a := r.parse(r.split(lines[all[i].line])[all[i].link]).value;
    var b := r.parse(r.split(lines[all[j].line])[all[j].link]).value;
    if all[i].element.tag == all[j].element.tag {
      TagInjective(a.tag, b.tag, i, j);
    }
  }

  /**
   Every detour is empty or names the nearest converted element to the right on the same line;
   that element has the next smaller number, so detours cannot form a cycle.
   */
  lemma DetoursDescend(r: Reader, lines: seq<string>, k: nat)
    requires k < |All(r, lines, |lines|)| && All(r, lines, |lines|)[k].element.detour.Some?
    ensures var all := All(r, lines, |lines|);
            all[k].line < |lines| &&
            var links := r.split(lines[all[k].line]);
            if all[k].element.detour.value == "" then Gap(r, links, all[k].link, |links|)
            else
              && k > 0 && all[k - 1].line == all[k].line && all[k].link < all[k - 1].link
              && all[k].element.detour.value == all[k - 1].element.tag
              && Gap(r, links, all[k].link, all[k - 1].link)
  {
    AllIsSound(r, lines, |lines|);
  }
}
