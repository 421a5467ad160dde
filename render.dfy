/** The text line that Handle builds for one admitted record:
      datetime, " ", level name, optionally " [" attrs "]", ": ", message, newline. */
module LineFormat {
  import opened Levels
  import opened Strings

  /** One attribute as Handle sees it: its key and the text that %v gives
      for its value (that formatting is not part of this model). */
  datatype Attr = Attr(key: string, value: string)

  /** A log record: the datetime already formatted as text (time.Format is
      not part of this model), the level, the message and the attributes in
      the order the record yields them. */
  datatype Record = Record(datetime: string, level: int, msg: string, attrs: seq<Attr>)

  const AttrDelimiter: string := ", "

  /** An attribute as Handle writes it: key, '=', value text. */
  function AttrText(a: Attr): (t: string)
    ensures |t| == |a.key| + 1 + |a.value| && t[|a.key|] == '='
  {
    a.key + "=" + a.value
  }

  /** The key comes before the '=' and the value text after it. */
  lemma AttrTextParts(a: Attr)
    ensures AttrText(a)[..|a.key|] == a.key && AttrText(a)[|a.key| + 1..] == a.value
  {
  }

  /** The attribute texts, one per attribute, in record order. */
  function AttrTexts(attrs: seq<Attr>): (texts: seq<string>)
    ensures |texts| == |attrs|
    ensures forall i :: 0 <= i < |attrs| ==> texts[i] == AttrText(attrs[i])
  {
    seq(|attrs|, i requires 0 <= i < |attrs| => AttrText(attrs[i]))
  }

  /** The attribute segment: empty for a record without attributes,
      otherwise " [" + the joined texts + "]". */
  function AttrSegment(attrs: seq<Attr>): (seg: string)
    ensures seg == "" <==> |attrs| == 0
  {
    if |attrs| == 0 then "" else " [" + Join(AttrTexts(attrs), AttrDelimiter) + "]"
  }

  /** The complete line written for an admitted record: it starts with the
      datetime text and ends with ": ", the message verbatim and a newline. */
  function Render(r: Record): (line: string)
    ensures |line| >= |r.datetime| + |r.msg| + 4 && line[|line| - 1] == '\n'
    ensures line[..|r.datetime|] == r.datetime
    ensures line[|line| - |r.msg| - 3..] == ": " + r.msg + "\n"
  {
    r.datetime + " " + LevelName(r.level) + AttrSegment(r.attrs) + ": " + r.msg + "\n"
  }

  /** Builds the line step by step, as Handle fills its buffer: datetime,
      level, the attribute texts collected one by one, message, newline. */
  method FormatLine(r: Record) returns (line: string)
    ensures line == Render(r)
  {
    line := r.datetime;
    line := line + " ";
    line := line + LevelName(r.level);
    var texts: seq<string> := [];
    var i := 0;
    while i < |r.attrs|
      invariant 0 <= i <= |r.attrs|
      invariant texts == AttrTexts(r.attrs[..i])
    {
      texts := texts + [AttrText(r.attrs[i])];
      i := i + 1;
    }
    assert r.attrs[..i] == r.attrs;
    if |texts| > 0 {
      line := line + " ";
      line := line + "[";
      line := line + Join(texts, AttrDelimiter);
      line := line + "]";
    }
    line := line + ": ";
    line := line + r.msg;
    line := line + "\n";
  }

  /** A record without attributes gets no brackets and no extra space. */
  lemma RenderWithoutAttrs(r: Record)
    requires |r.attrs| == 0
    ensures Render(r) == r.datetime + " " + LevelName(r.level) + ": " + r.msg + "\n"
  {
  }

  /** n >= 1 attributes give " [", the n texts in order with n - 1 delimiters, then "]". */
  lemma RenderWithAttrs(r: Record)
    requires |r.attrs| > 0
    ensures var j := Join(AttrTexts(r.attrs), AttrDelimiter);
      Render(r) == r.datetime + " " + LevelName(r.level) + " [" + j + "]: " + r.msg + "\n"
      && |j| == TotalLength(AttrTexts(r.attrs)) + (|r.attrs| - 1) * 2
  {
  }

  /** If no input text contains a newline, the line holds exactly one, at its end. */
  lemma RenderSingleLine(r: Record)
    requires '\n' !in r.datetime && '\n' !in r.msg
    requires forall a | a in r.attrs :: '\n' !in a.key && '\n' !in a.value
    ensures var line := Render(r); line[|line| - 1] == '\n' && '\n' !in line[..|line| - 1]
  {
    var texts := AttrTexts(r.attrs);
    forall i | 0 <= i < |texts|
      ensures '\n' !in texts[i]
    {
      assert r.attrs[i] in r.attrs;
    }
    JoinExcludes(texts, AttrDelimiter, '\n');
    LevelNameHasNoDelimiter(r.level);
    var line := Render(r);
    assert line[..|line| - 1] == r.datetime + " " + LevelName(r.level) + AttrSegment(r.attrs) + ": " + r.msg;
  }

  /** The attribute segment for "attr1", 1. */
  lemma OneAttrSegment()
    ensures AttrSegment([Attr("attr1", "1")]) == " [attr1=1]"
  {
    var a := Attr("attr1", "1");
    assert AttrTexts([a]) == [AttrText(a)];
  }

  /** The attribute segment for "attr1", 1, "attr2", "v". */
  lemma TwoAttrSegment()
    ensures AttrSegment([Attr("attr1", "1"), Attr("attr2", "v")]) == " [attr1=1, attr2=v]"
  {
    var a, b := Attr("attr1", "1"), Attr("attr2", "v");
    var texts := [AttrText(a), AttrText(b)];
    assert AttrTexts([a, b]) == texts;
    assert texts[1..] == [texts[1]];
    assert Join(texts, AttrDelimiter) == AttrText(a) + ", " + AttrText(b);
  }

  /** The line for logger.Info("message", "attr1", 1). */
  lemma RenderOneAttr(dt: string)
    ensures Render(Record(dt, Info, "message", [Attr("attr1", "1")]))
         == dt + " " + "INFO" + " [attr1=1]" + ": " + "message" + "\n"
  {
    OneAttrSegment();
  }

  /** The line for logger.Warn("message", "attr1", 1, "attr2", "v"). */
  lemma RenderTwoAttrs(dt: string)
    ensures Render(Record(dt, Warn, "message", [Attr("attr1", "1"), Attr("attr2", "v")]))
         == dt + " " + "WARN" + " [attr1=1, attr2=v]" + ": " + "message" + "\n"
  {
    TwoAttrSegment();
  }

  /** The line for logger.Error("message"): the level name is followed directly by ": ". */
  lemma RenderNoAttrs(dt: string)
    ensures Render(Record(dt, Error, "message", [])) == dt + " " + "ERROR" + ": " + "message" + "\n"
  {
  }
}
