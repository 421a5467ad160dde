/** Reading a rendered line back into its parts. Handle only writes lines;
    this decoder is the partner that shows a line loses nothing: given the
    width of the datetime text, the datetime, level, attribute text and
    message are all recoverable. */
module LineParse {
  import opened Wrappers
  import opened Levels
  import opened Strings
  import opened LineFormat

  /** The parts of a line: the level is None when no canonical name was written. */
  datatype Parsed = Parsed(datetime: string, level: Option<int>, attrs: string, msg: string)

  /** Ends the attribute segment; it cannot begin inside the segment when
      no attribute text contains it. */
  const SegmentEnd: string := "]: "

  /** Index of the first ':' or ' ' in s, or |s| when there is none. */
  function NameEnd(s: string): (n: nat)
    ensures n <= |s|
    ensures forall i :: 0 <= i < n ==> s[i] != ':' && s[i] != ' '
    ensures n < |s| ==> s[n] == ':' || s[n] == ' '
    decreases |s|
  {
    if |s| == 0 || s[0] == ':' || s[0] == ' ' then 0 else 1 + NameEnd(s[1..])
  }

  /** Splits what follows the level name: either ": " and the message, or
      " [", the attribute text, "]: " and the message. */
  function ParseTail(rest: string): Option<(string, string)> {
    if |rest| >= 2 && rest[..2] == ": " then Some(("", rest[2..]))
    else if |rest| >= 2 && rest[..2] == " [" then
      match Find(rest[2..], SegmentEnd)
      case Some(k) => Some((rest[2..][..k], rest[2..][k + |SegmentEnd|..]))
      case None => None
    else None
  }

  /** Splits a line written with a datetime of the given width. */
  function ParseLine(line: string, width: nat): Option<Parsed> {
    if |line| < width + 2 || line[width] != ' ' || line[|line| - 1] != '\n' then None
    else
      var body := line[width + 1..|line| - 1];
      var n := NameEnd(body);
      match ParseTail(body[n..])
      case Some((attrs, msg)) => Some(Parsed(line[..width], LevelFromName(body[..n]), attrs, msg))
      case None => None
  }

  /** No attribute text contains "]: ", the text that closes the segment. */
  ghost predicate NoSegmentEnd(attrs: seq<Attr>) {
    forall a, i | a in attrs :: !OccursAt(AttrText(a), SegmentEnd, i)
  }

  /** No "]: " begins inside the attribute text j of the tail j + "]: " + msg. */
  predicate ClosesAfter(j: string, msg: string) {
    forall i :: 0 <= i < |j| ==> !OccursAt(j + SegmentEnd + msg, SegmentEnd, i)
  }

  /** After " [", the attribute text j is split from the message exactly when
      the first "]: " is the one that follows j. */
  lemma ParseTailBracketed(j: string, msg: string)
    ensures ParseTail(" [" + j + SegmentEnd + msg) == Some((j, msg)) <==> ClosesAfter(j, msg)
  {
    var rest := " [" + j + SegmentEnd + msg;
    var s := j + SegmentEnd + msg;
    assert rest[..2] == " [";
    assert rest[2..] == s;
    assert OccursAt(s, SegmentEnd, |j|) by { assert s[|j|..] == SegmentEnd + msg; }
    FindFirst(s, SegmentEnd);
    if ClosesAfter(j, msg) {
      FindAt(s, SegmentEnd, |j|);
      assert s[..|j|] == j;
      assert s[|j| + |SegmentEnd|..] == msg;
    } else {
      var k := Find(s, SegmentEnd).value;
      assert k < |j|;
      assert |s[..k]| != |j|;
    }
  }

  /** A "]: " that begins inside a text free of it would run into what
      follows, which starts with neither ':' nor ' '. */
  lemma NoEndStartsIn(t: string, after: string, i: nat)
    requires forall k :: !OccursAt(t, SegmentEnd, k)
    requires |after| > 0 && after[0] != ':' && after[0] != ' '
    requires i < |t|
    ensures !OccursAt(t + after, SegmentEnd, i)
  {
    var s := t + after;
    if i + |SegmentEnd| <= |t| {
      OccursWithin(t, after, SegmentEnd, i);
    } else if i + |SegmentEnd| <= |s| {
      assert s[|t|] == after[0];
      if i == |t| - 1 {
        assert s[i..][..|SegmentEnd|][1] == s[|t|];
      } else {
        assert s[i..][..|SegmentEnd|][2] == s[|t|];
      }
    }
  }

  /** Joined texts free of "]: ", followed by "]: " and a message: the first
      "]: " is the closing one, since the delimiter ", " starts none. */
  lemma {:induction false} JoinClosesAfter(texts: seq<string>, msg: string)
    requires |texts| > 0
    requires forall n, k | 0 <= n < |texts| :: !OccursAt(texts[n], SegmentEnd, k)
    ensures ClosesAfter(Join(texts, AttrDelimiter), msg)
    decreases |texts|
  {
    var t := texts[0];
    var j := Join(texts, AttrDelimiter);
    if |texts| == 1 {
      assert j + SegmentEnd + msg == t + (SegmentEnd + msg);
      forall i | 0 <= i < |j|
        ensures !OccursAt(j + SegmentEnd + msg, SegmentEnd, i)
      {
        NoEndStartsIn(t, SegmentEnd + msg, i);
      }
    } else {
      var back := Join(texts[1..], AttrDelimiter) + SegmentEnd + msg;
      JoinClosesAfter(texts[1..], msg);
      var s := t + AttrDelimiter + back;
      assert j + SegmentEnd + msg == s;
      forall i | 0 <= i < |j|
        ensures !OccursAt(s, SegmentEnd, i)
      {
        if i < |t| {
          assert s == t + (AttrDelimiter + back);
          NoEndStartsIn(t, AttrDelimiter + back, i);
        } else if i < |t| + |AttrDelimiter| {
          assert s[i] == AttrDelimiter[i - |t|];
          if i + |SegmentEnd| <= |s| {
            assert s[i..][..|SegmentEnd|][0] == s[i];
          }
        } else {
          OccursBeyond(t + AttrDelimiter, back, SegmentEnd, i - |t| - |AttrDelimiter|);
        }
      }
    }
  }

  /** The tail of a line recovers the attribute text and the message. */
  lemma ParseTailSegment(attrs: seq<Attr>, msg: string)
    requires NoSegmentEnd(attrs)
    ensures ParseTail(AttrSegment(attrs) + ": " + msg) == Some((Join(AttrTexts(attrs), AttrDelimiter), msg))
  {
    if |attrs| > 0 {
      var texts := AttrTexts(attrs);
      var j := Join(texts, AttrDelimiter);
      forall n, k | 0 <= n < |texts|
        ensures !OccursAt(texts[n], SegmentEnd, k)
      {
        assert attrs[n] in attrs;
      }
      JoinClosesAfter(texts, msg);
      assert AttrSegment(attrs) + ": " + msg == " [" + j + SegmentEnd + msg;
      ParseTailBracketed(j, msg);
    } else {
      assert AttrSegment(attrs) + ": " + msg == ": " + msg;
      assert (": " + msg)[2..] == msg;
    }
  }

  /** The front of a line recovers the datetime and the level. */
  lemma ParseLineFront(r: Record)
    ensures var line := Render(r);
      var width := |r.datetime|;
      |line| >= width + 2 && line[width] == ' ' && line[|line| - 1] == '\n'
      && var body := line[width + 1..|line| - 1];
      NameEnd(body) == |LevelName(r.level)|
      && body[..NameEnd(body)] == LevelName(r.level)
      && body[NameEnd(body)..] == AttrSegment(r.attrs) + ": " + r.msg
      && line[..width] == r.datetime
  {
    var name := LevelName(r.level);
    var tail := AttrSegment(r.attrs) + ": " + r.msg;
    var seg := AttrSegment(r.attrs);
    assert tail[0] == if seg == "" then ':' else seg[0];
    assert Render(r) == r.datetime + " " + name + tail + "\n";
    LevelNameHasNoDelimiter(r.level);
    LineFront(r.datetime, name, tail);
  }

  /** The same placement for any datetime, name and tail: the line is cut
      after the datetime, and the name ends where the tail's ':' or ' ' begins. */
  lemma LineFront(dt: string, name: string, tail: string)
    requires ':' !in name && ' ' !in name
    requires |tail| > 0 && (tail[0] == ':' || tail[0] == ' ')
    ensures var line := dt + " " + name + tail + "\n";
      |line| >= |dt| + 2 && line[|dt|] == ' ' && line[|line| - 1] == '\n'
      && var body := line[|dt| + 1..|line| - 1];
      NameEnd(body) == |name| && body[..NameEnd(body)] == name && body[NameEnd(body)..] == tail
      && line[..|dt|] == dt
  {
    var line := dt + " " + name + tail + "\n";
    assert line[|dt| + 1..|line| - 1] == name + tail;
    NameEndAfter(name, tail);
  }

  /** Every line Handle writes parses back to the record's datetime, level,
      joined attribute text and message, provided no attribute text contains "]: ". */
  lemma ParseRender(r: Record)
    requires NoSegmentEnd(r.attrs)
    ensures ParseLine(Render(r), |r.datetime|)
         == Some(Parsed(r.datetime, if IsNamed(r.level) then Some(r.level) else None,
                        Join(AttrTexts(r.attrs), AttrDelimiter), r.msg))
  {
    ParseLineFront(r);
    ParseTailSegment(r.attrs, r.msg);
    LevelNameRoundTrip(r.level);
  }

  /** A name free of ':' and ' ' ends where the following ':' or ' ' begins. */
  lemma {:induction false} NameEndAfter(name: string, tail: string)
    requires ':' !in name && ' ' !in name
    requires |tail| > 0 && (tail[0] == ':' || tail[0] == ' ')
    ensures NameEnd(name + tail) == |name|
    decreases |name|
  {
    if |name| > 0 {
      assert (name + tail)[1..] == name[1..] + tail;
      NameEndAfter(name[1..], tail);
    } else {
      assert name + tail == tail;
    }
  }

  /** Two records with equal datetime width, whose attribute texts contain no
      "]: ", that render to the same line carry the same message and the same
      attribute text. */
  lemma RenderDeterminesMessage(r1: Record, r2: Record)
    requires |r1.datetime| == |r2.datetime| && NoSegmentEnd(r1.attrs) && NoSegmentEnd(r2.attrs)
    requires Render(r1) == Render(r2)
    ensures r1.msg == r2.msg && r1.datetime == r2.datetime
    ensures IsNamed(r1.level) ==> r1.level == r2.level
    ensures Join(AttrTexts(r1.attrs), AttrDelimiter) == Join(AttrTexts(r2.attrs), AttrDelimiter)
  {
    ParseRender(r1);
    ParseRender(r2);
  }

  /** Without the restriction the message is not determined: a value text
      holding "]: " renders to the same line as the value cut at that "]: "
      with the rest moved in front of the message. */
  lemma SegmentEndAmbiguous(dt: string, level: int, key: string, v: string, w: string, msg: string)
    ensures Render(Record(dt, level, msg, [Attr(key, v + SegmentEnd + w)]))
         == Render(Record(dt, level, w + SegmentEnd + msg, [Attr(key, v)]))
  {
    var a, b := Attr(key, v + SegmentEnd + w), Attr(key, v);
    assert AttrText(a) == AttrText(b) + SegmentEnd + w;
    assert AttrTexts([a]) == [AttrText(a)];
    assert AttrTexts([b]) == [AttrText(b)];
    Regroup(dt + " " + LevelName(level), AttrText(b), w, msg);
  }

  /** Moving "]: " + w out of the bracket and in front of the message leaves the text unchanged. */
  lemma Regroup(front: string, t: string, w: string, msg: string)
    ensures front + (" [" + (t + SegmentEnd + w) + "]") + ": " + msg + "\n"
         == front + (" [" + t + "]") + ": " + (w + SegmentEnd + msg) + "\n"
  {
  }
}
