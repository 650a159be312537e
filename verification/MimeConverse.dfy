/**
 Which forms come back from the builder at all: header values that hold a line break are cut by it, whatever
 they go on with, and are never read as they were.
 */
module MimeConverse {
  import opened Options
  import opened Text
  import opened Base64
  import opened EncodedWord
  import opened Mime
  import opened MimeReader

  /******* Lines of any text *******/

  lemma {:induction false} BreakAtIs(raw: string)
    ensures OneLine(raw[..BreakAt(raw)])
    ensures BreakAt(raw) < |raw| ==> raw == raw[..BreakAt(raw)] + CRLF + raw[BreakAt(raw) + 2..]
    decreases raw
  {
    BreaksFirst(raw);
    if raw != "" && !StartsWith(raw, CRLF) {
      BreakAtIs(raw[1..]);
      var i := BreakAt(raw[1..]);
      assert raw[..i + 1] == [raw[0]] + raw[1..][..i];
      LongerLine(raw, i);
    }
  }

  lemma LongerLine(raw: string, i: nat)
    requires i < |raw| && OneLine(raw[1..][..i]) && !StartsWith(raw, CRLF)
    requires i == BreakAt(raw[1..])
    ensures OneLine(raw[..i + 1])
  {
    BreaksFirst(raw);
    var line, rest := raw[..i + 1], raw[1..][..i];
    forall j | 0 <= j < |line| - 1
      ensures !(line[j] == '\r' && line[j + 1] == '\n')
    {
      if j > 0 {
        assert line[j] == rest[j - 1] && line[j + 1] == rest[j];
      }
    }
  }

  /** No line of a text holds a line break, and none is longer than the text. */
  lemma {:induction false} LinesAreOne(raw: string)
    ensures forall x :: x in SplitLines(raw) ==> OneLine(x) && |x| <= |raw|
    decreases |raw|
  {
    BreakAtIs(raw);
    var i := BreakAt(raw);
    if i < |raw| {
      LinesAreOne(raw[i + 2..]);
    } else {
      assert raw[..i] == raw;
    }
  }

  /** The lines of two texts with a break between them are those of each. */
  lemma {:induction false} SplitConcat(a: string, b: string)
    ensures SplitLines(a + CRLF + b) == SplitLines(a) + SplitLines(b)
    decreases |a|
  {
    BreakAtIs(a);
    var i := BreakAt(a);
    if i == |a| {
      assert a[..i] == a;
      SplitAfterLine(a, b);
    } else {
      var line, rest := a[..i], a[i + 2..];
      assert a + CRLF + b == line + CRLF + (rest + CRLF + b);
      SplitAfterLine(line, rest + CRLF + b);
      SplitConcat(rest, b);
    }
  }

  lemma SplitAfterLine(line: string, rest: string)
    requires OneLine(line)
    ensures SplitLines(line + CRLF + rest) == [line] + SplitLines(rest)
  {
    BreakAfterLine(line, rest);
    var raw := line + CRLF + rest;
    assert raw[..|line|] == line && raw[|line| + 2..] == rest;
  }

  /** A line of joined texts is a line of one of them. */
  lemma {:induction false} LineOfJoined(lines: seq<string>, x: string) returns (l: string)
    requires lines != [] && x in SplitLines(JoinLines(lines))
    ensures l in lines && x in SplitLines(l)
    decreases lines
  {
    if |lines| == 1 || x in SplitLines(lines[0]) {
      l := lines[0];
    } else {
      SplitConcat(lines[0], JoinLines(lines[1..]));
      l := LineOfJoined(lines[1..], x);
    }
  }

  lemma LineOfOne(l: string)
    requires OneLine(l)
    ensures SplitLines(l) == [l]
  {
    BreakAtEnd(l);
  }

  /******* What the reader takes from one line *******/

  lemma {:induction false} ValueIn(headers: seq<Header>, name: string) returns (i: nat)
    requires ValueOf(headers, name).Some?
    ensures i < |headers| && headers[i].name == name && ValueOf(headers, name) == Some(headers[i].value)
    decreases headers
  {
    if headers[0].name == name {
      i := 0;
    } else {
      i := ValueIn(headers[1..], name);
      i := i + 1;
    }
  }

  lemma FieldOfLine(line: string)
    requires OneLine(line)
    ensures OneLine(ReadField(line).value)
  {
  }

  lemma ValueIsOneLine(lines: seq<string>, name: string)
    requires OneLines(lines) && ValueOf(ReadFields(lines), name).Some?
    ensures OneLine(ValueOf(ReadFields(lines), name).value)
  {
    var i := ValueIn(ReadFields(lines), name);
    FieldOfLine(lines[i]);
  }

  lemma MessageFields(headers: seq<Header>, body: seq<string>, mail: Mail)
    requires ReadMessage(headers, body) == Some(mail)
    ensures mail.from == ValueOf(headers, "From") && mail.to == ValueOf(headers, "To")
  {
  }

  ghost predicate FromOneLines(mail: Mail) {
    (mail.from.Some? ==> OneLine(mail.from.value)) && (mail.to.Some? ==> OneLine(mail.to.value))
  }

  lemma MessageOfLines(top: seq<string>, body: seq<string>, mail: Mail)
    requires OneLines(top) && ReadMessage(ReadFields(top), body) == Some(mail)
    ensures FromOneLines(mail)
  {
    MessageFields(ReadFields(top), body, mail);
    if ValueOf(ReadFields(top), "From").Some? {
      ValueIsOneLine(top, "From");
    }
    if ValueOf(ReadFields(top), "To").Some? {
      ValueIsOneLine(top, "To");
    }
  }

  /** Whatever the text, sender and recipients are read from one line each. */
  lemma ReadsOneLines(raw: string, mail: Mail)
    requires ReadMail(raw) == Some(mail)
    ensures FromOneLines(mail)
  {
    AllOneLines(raw);
    MailOfLines(SplitLines(raw), FirstBlank(SplitLines(raw)), mail);
  }

  lemma AllOneLines(raw: string)
    ensures OneLines(SplitLines(raw))
  {
    LinesAreOne(raw);
  }

  lemma FirstOneLines(lines: seq<string>, k: nat)
    requires OneLines(lines) && k <= |lines|
    ensures OneLines(lines[..k])
  {
  }

  lemma MailOfLines(lines: seq<string>, k: nat, mail: Mail)
    requires OneLines(lines) && k < |lines|
    requires ReadMessage(ReadFields(lines[..k]), lines[k + 1..]) == Some(mail)
    ensures FromOneLines(mail)
  {
    FirstOneLines(lines, k);
    MessageOfLines(lines[..k], lines[k + 1..], mail);
  }

  /** A line that names an attachment's file. */
  predicate NamesFile(x: string, filename: string) {
    ReadField(x).name == DISPOSITION && Parameter(ReadField(x).value, "filename") == Some(filename)
  }

  lemma EntityFile(lines: seq<string>) returns (x: string)
    requires ReadEntity(lines).Some? && AsFile(ReadEntity(lines).value).Some?
    ensures x in lines && NamesFile(x, AsFile(ReadEntity(lines).value).value.filename)
  {
    var headers := ReadFields(lines[..FirstBlank(lines)]);
    var i := ValueIn(headers, DISPOSITION);
    x := lines[i];
  }

  lemma {:induction false} AttachedFile(sections: seq<seq<string>>) returns (s: seq<string>, x: string)
    requires ReadEntities(sections).Some? && Attached(ReadEntities(sections).value).Some?
    ensures s in sections && x in s && NamesFile(x, Attached(ReadEntities(sections).value).value.filename)
    decreases sections
  {
    var e := ReadEntity(sections[0]).value;
    var more := ReadEntities(sections[1..]).value;
    var entities := ReadEntities(sections).value;
    assert entities[0] == e && entities[1..] == more;
    if AsFile(e).Some? {
      s := sections[0];
      x := EntityFile(s);
    } else {
      s, x := AttachedFile(sections[1..]);
    }
  }

  lemma {:induction false} PartsAreLines(lines: seq<string>, boundary: string)
    requires Parts(lines, boundary).Some?
    ensures forall s, x :: s in Parts(lines, boundary).value && x in s ==> x in lines
    decreases |lines|
  {
    var i := NextDelimiter(lines, boundary);
    if !IsClose(lines[i], boundary) {
      PartsAreLines(lines[i + 1..], boundary);
      var parts, more := Parts(lines, boundary).value, Parts(lines[i + 1..], boundary).value;
      assert parts == [lines[..i]] + more;
      assert forall s :: s in parts ==> s == lines[..i] || s in more;
    }
  }

  lemma BodyIsLines(lines: seq<string>, boundary: string)
    requires ReadBody(lines, boundary).Some?
    ensures forall s, x :: s in ReadBody(lines, boundary).value && x in s ==> x in lines
  {
    var i := NextDelimiter(lines, boundary);
    if !IsClose(lines[i], boundary) {
      PartsAreLines(lines[i + 1..], boundary);
    }
  }

  /** Whatever the text, the attachment's name is read from one line of it. */
  lemma FileIsOnALine(raw: string) returns (x: string)
    requires ReadMail(raw).Some? && ReadMail(raw).value.attachment.Some?
    ensures x in SplitLines(raw) && NamesFile(x, ReadMail(raw).value.attachment.value.filename)
  {
    var lines := SplitLines(raw);
    var k := FirstBlank(lines);
    var headers, body := ReadFields(lines[..k]), lines[k + 1..];
    var boundary := Parameter(ValueOf(headers, TYPE).value, "boundary").value;
    var sections := ReadBody(body, boundary).value;
    BodyIsLines(body, boundary);
    var s;
    s, x := AttachedFile(sections);
  }

  lemma {:induction false} UnquotedLength(s: string)
    ensures |Unquoted(s)| <= |s|
    decreases |s|
  {
    if s != "" && s[0] != '\"' && !(s[0] == '\\' && |s| == 1) {
      UnquotedLength(if s[0] == '\\' then s[2..] else s[1..]);
    }
  }

  lemma {:induction false} ParameterLength(value: string, key: string)
    requires Parameter(value, key).Some?
    ensures |Parameter(value, key).value| < |value|
    decreases |value|
  {
    if StartsWith(value, "; " + key + "=\"") {
      UnquotedLength(value[|key| + 4..]);
    } else {
      ParameterLength(value[1..], key);
    }
  }

  lemma FileIsShorter(x: string, filename: string)
    requires NamesFile(x, filename)
    ensures |filename| < |x|
  {
    ParameterLength(ReadField(x).value, "filename");
  }

  /******* The builder's lines *******/

  /** One line, and not one that names a file. */
  predicate Harmless(l: string) {
    OneLine(l) && ReadField(l).name != DISPOSITION
  }

  lemma HarmlessNamesNone(l: string, x: string, filename: string)
    requires Harmless(l) && x in SplitLines(l)
    ensures !NamesFile(x, filename)
  {
    LineOfOne(l);
  }

  lemma DispositionIs()
    ensures |DISPOSITION| == 19 && DISPOSITION[0] == 'C' && DISPOSITION[7] == '-'
  {
  }

  /** A line whose first character, or eighth, is another is no such field. */
  lemma OtherLine(l: string)
    requires OneLine(l) && (l == "" || l[0] != 'C' || (|l| > 7 && l[7] != '-') || |l| < 19)
    ensures Harmless(l)
  {
    DispositionIs();
    BeforeIs(l, ':');
  }

  lemma FieldIsHarmless(h: Header)
    requires IsName(h.name) && OneLine(h.value) && h.name != DISPOSITION
    ensures Harmless(Field(h))
  {
    FieldReads(h);
  }

  lemma EncodedIsHarmless(b: Bytes, l: string)
    requires OneLine(l) && forall i :: 0 <= i < |l| ==> l[i] in Encode(b)
    ensures Harmless(l)
  {
    EncodedShape(b);
    if |l| > 7 {
      assert l[7] in Encode(b);
      assert l[7] != '-';
    }
    OtherLine(l);
  }

  ghost predicate AllHarmless(lines: seq<string>) {
    forall l :: l in lines ==> Harmless(l)
  }

  lemma TopIsHarmless(form: Form, stamp: Stamp)
    requires OneLine(form.from) && OneLine(form.to) && StampFits(stamp)
    ensures AllHarmless(Fields(TopHeaders(form, stamp)))
  {
    var bare := form.(attachment := None);
    assert TopHeaders(bare, stamp) == TopHeaders(form, stamp);
    TopHeadersFit(bare, stamp);
    EncodedHeaderIsPrintable(form.subject);
    TopValuesFit(bare, stamp);
    TopNamesDiffer(form, stamp);
    var headers := TopHeaders(form, stamp);
    forall l | l in Fields(headers)
      ensures Harmless(l)
    {
      var i :| 0 <= i < |headers| && Fields(headers)[i] == l;
      FieldIsHarmless(headers[i]);
    }
  }

  lemma TopNamesDiffer(form: Form, stamp: Stamp)
    ensures forall i :: 0 <= i < |TopHeaders(form, stamp)| ==> TopHeaders(form, stamp)[i].name != DISPOSITION
  {
    DispositionIs();
    assert |TYPE| == 12;
  }

  lemma BodySectionIsHarmless(mediaType: string, b: Bytes)
    requires OneLine(mediaType)
    ensures AllHarmless(Section(BodyHeaders(mediaType), [Encode(b)]))
  {
    BodyHeadersFit(mediaType);
    PartNames();
    FieldsRead(BodyHeaders(mediaType));
    EncodedLine(b);
    EncodedIsHarmless(b, Encode(b));
    OtherLine("");
    var headers := BodyHeaders(mediaType);
    forall l | l in Section(headers, [Encode(b)])
      ensures Harmless(l)
    {
      if l != "" && l != Encode(b) {
        assert l in Fields(headers);
      }
    }
  }

  lemma ChunksAreHarmless(b: Bytes)
    ensures AllHarmless(Chunks(Encode(b)))
  {
    ChunksAre(Encode(b));
    ChunkLines(b);
    forall l | l in Chunks(Encode(b))
      ensures Harmless(l)
    {
      EncodedIsHarmless(b, l);
    }
  }

  /** The two lines of the attachment's part that hold its name. */
  function TypeLine(a: Attachment): string {
    Field(Header(TYPE, a.contentType + Quoted("name", a.filename)))
  }

  function DispositionLine(a: Attachment): string {
    Field(Header(DISPOSITION, "attachment" + Quoted("filename", a.filename)))
  }

  ghost predicate AllButTwo(lines: seq<string>, a: Attachment) {
    forall l :: l in lines ==> Harmless(l) || l == TypeLine(a) || l == DispositionLine(a)
  }

  lemma FileSectionIs(a: Attachment)
    ensures AllButTwo(Section(AttachmentHeaders(a), Chunks(Encode(a.content))), a)
  {
    ChunksAreHarmless(a.content);
    OtherLine("");
    PartNames();
    Utf8Fits();
    FieldIsHarmless(Header(ENCODING, "base64"));
    var headers := AttachmentHeaders(a);
    forall l | l in Fields(headers)
      ensures l == Field(headers[0]) || l == Field(headers[1]) || l == Field(headers[2])
    {
    }
  }

  lemma DelimiterIsHarmless(boundary: string)
    requires OneLine(boundary)
    ensures Harmless("--" + boundary) && Harmless("--" + boundary + "--")
  {
    OneLineJoins("--", boundary);
    OneLineJoins("--" + boundary, "--");
    OtherLine("--" + boundary);
    OtherLine("--" + boundary + "--");
  }

  lemma {:induction false} DelimitedIs(sections: seq<seq<string>>, boundary: string, a: Attachment)
    requires OneLine(boundary) && forall s :: s in sections ==> AllButTwo(s, a)
    ensures AllButTwo(Delimited(sections, boundary), a)
    decreases sections
  {
    DelimiterIsHarmless(boundary);
    OtherLine("");
    if sections != [] {
      assert sections[0] in sections;
      DelimitedIs(sections[1..], boundary, a);
    }
  }

  lemma LinesAre(form: Form, stamp: Stamp)
    requires OneLine(form.from) && OneLine(form.to) && StampFits(stamp) && form.attachment.Some?
    ensures AllButTwo(Lines(form, stamp), form.attachment.value)
  {
    var a := form.attachment.value;
    TopIsHarmless(form, stamp);
    OtherLine("");
    BodySectionIsHarmless(PLAIN, form.text);
    BodySectionIsHarmless(HTML, form.html);
    FileSectionIs(a);
    DelimitedIs(Sections(form), Boundary(stamp), a);
  }

  /******* A name with a line break in it *******/

  /** What a parameter's value begins with, on its line. */
  function Opening(name: string, value: string, key: string): string {
    name + ": " + (value + ("; " + key + "=\""))
  }

  lemma OpeningIs(name: string, value: string, key: string, text: string)
    ensures Field(Header(name, value + Quoted(key, text))) == Opening(name, value, key) + (text + "\"")
    ensures Field(Header(name, value + ("; " + key + "=\"" + text))) == Opening(name, value, key) + text
  {
    var a, b, c := name + ": ", value, "; " + key + "=\"";
    assert value + Quoted(key, text) == b + (c + (text + "\""));
    Reassociates(a, b, c, text + "\"");
    assert value + ("; " + key + "=\"" + text) == b + (c + text);
    Reassociates(a, b, c, text);
  }

  lemma Reassociates(a: string, b: string, c: string, d: string)
    ensures a + (b + (c + d)) == a + (b + c) + d
  {
  }

  lemma BrokenIs(opening: string, front: string, back: string)
    ensures opening + ((front + CRLF + back) + "\"") == (opening + front) + CRLF + (back + "\"")
  {
  }

  lemma BreakInside(broken: string)
    requires !OneLine(broken)
    ensures BreakAt(broken) < |broken|
  {
    assert broken[..|broken|] == broken;
    BreakAtIs(broken);
  }

  lemma BrokenText(opening: string, broken: string, x: string)
    requires !OneLine(broken) && OneLine(opening + broken[..BreakAt(broken)])
    requires x in SplitLines(opening + (broken + "\""))
    ensures BreakAt(broken) < |broken| && (x == opening + broken[..BreakAt(broken)] || |x| < |broken|)
  {
    BreakInside(broken);
    BreakAtIs(broken);
    var p := BreakAt(broken);
    BrokenIs(opening, broken[..p], broken[p + 2..]);
    SplitAfterLine(opening + broken[..p], broken[p + 2..] + "\"");
    LinesAreOne(broken[p + 2..] + "\"");
  }

  /** A parameter's value holding a break cuts its line there, and what comes after is shorter than the value. */
  lemma BrokenLine(name: string, value: string, key: string, broken: string, x: string)
    requires IsName(name) && OneLine(value) && OneLine(key) && (key == "" || key[0] != '\n') && !OneLine(broken)
    requires x in SplitLines(Field(Header(name, value + Quoted(key, broken))))
    ensures var p := BreakAt(broken);
            p < |broken| && (x == Field(Header(name, value + ("; " + key + "=\"" + broken[..p]))) || |x| < |broken|)
  {
    BreakAtIs(broken);
    OpeningIs(name, value, key, broken);
    OpeningIs(name, value, key, broken[..BreakAt(broken)]);
    BrokenFront(name, value, key, broken[..BreakAt(broken)]);
    BrokenText(Opening(name, value, key), broken, x);
  }

  lemma BrokenFront(name: string, value: string, key: string, cut: string)
    requires IsName(name) && OneLine(value) && OneLine(key) && (key == "" || key[0] != '\n') && OneLine(cut)
    ensures OneLine(Field(Header(name, value + ("; " + key + "=\"" + cut))))
  {
    EqualsQuote(cut);
    OneLineJoins("; ", key);
    OneLineJoins("; " + key, "=\"" + cut);
    assert "; " + key + ("=\"" + cut) == "; " + key + "=\"" + cut;
    OneLineJoins(value, "; " + key + "=\"" + cut);
    FieldReads(Header(name, value + ("; " + key + "=\"" + cut)));
  }

  lemma EqualsQuote(cut: string)
    requires OneLine(cut)
    ensures OneLine("=\"" + cut)
  {
    var s := "=\"" + cut;
    forall i | 0 <= i < |s| - 1
      ensures !(s[i] == '\r' && s[i + 1] == '\n')
    {
      if i >= 2 {
        assert s[i] == cut[i - 2] && s[i + 1] == cut[i - 1];
      }
    }
  }

  /** No line of either names the file as it was. */
  lemma BrokenTypeLine(a: Attachment, x: string, filename: string)
    requires OneLine(a.contentType) && !OneLine(a.filename)
    requires x in SplitLines(TypeLine(a)) && NamesFile(x, filename)
    ensures |filename| < |a.filename|
  {
    PartNames();
    KeysFit();
    BrokenLine(TYPE, a.contentType, "name", a.filename, x);
    var cut := a.filename[..BreakAt(a.filename)];
    FieldReads(Header(TYPE, a.contentType + ("; " + "name" + "=\"" + cut)));
    DispositionIs();
    FileIsShorter(x, filename);
  }

  lemma KeysFit()
    ensures OneLine("name") && OneLine("filename") && OneLine("attachment") && ';' !in "attachment"
  {
  }

  lemma BrokenDispositionLine(a: Attachment, x: string, filename: string)
    requires !OneLine(a.filename)
    requires x in SplitLines(DispositionLine(a)) && NamesFile(x, filename)
    ensures |filename| < |a.filename|
  {
    PartNames();
    KeysFit();
    BrokenLine(DISPOSITION, "attachment", "filename", a.filename, x);
    FileIsShorter(x, filename);
    CutDisposition(a.filename[..BreakAt(a.filename)]);
  }

  lemma CutDisposition(cut: string)
    ensures var x := Field(Header(DISPOSITION, "attachment" + ("; " + "filename" + "=\"" + cut)));
            forall filename :: NamesFile(x, filename) ==> |filename| <= |cut|
  {
    PartNames();
    KeysFit();
    FieldReads(Header(DISPOSITION, "attachment" + ("; " + "filename" + "=\"" + cut)));
    ParameterAfter("attachment", "filename", cut);
    UnquotedLength(cut);
  }

  /** A filename with a line break in it never comes back. */
  lemma BrokenFilename(form: Form, stamp: Stamp)
    requires OneLine(form.from) && OneLine(form.to) && StampFits(stamp) && form.attachment.Some?
    requires OneLine(form.attachment.value.contentType) && !OneLine(form.attachment.value.filename)
    ensures var read := ReadMail(JoinLines(Lines(form, stamp)));
            read.Some? && read.value.attachment.Some? ==>
              read.value.attachment.value.filename != form.attachment.value.filename
  {
    var a := form.attachment.value;
    var raw := JoinLines(Lines(form, stamp));
    if ReadMail(raw).Some? && ReadMail(raw).value.attachment.Some? {
      var filename := ReadMail(raw).value.attachment.value.filename;
      var x := FileIsOnALine(raw);
      var l := LineOfJoined(Lines(form, stamp), x);
      LinesAre(form, stamp);
      if Harmless(l) {
        HarmlessNamesNone(l, x, filename);
      } else {
        if l == TypeLine(a) {
          BrokenTypeLine(a, x, filename);
        } else {
          BrokenDispositionLine(a, x, filename);
        }
      }
    }
  }

  /******* The whole form *******/

  /** The mail holds what the form does; an html part only when there is one. */
  predicate ComesBack(form: Form, mail: Mail) {
    && mail.from == Some(form.from) && mail.to == Some(form.to) && NamesComeBack(form, mail)
    && mail.text == Some(form.text) && mail.html == (if form.html != "" then Some(form.html) else None)
    && match form.attachment
       case None => mail.attachment.None?
       case Some(a) =>
         mail.attachment.Some? && mail.attachment.value.content == a.content &&
         mail.attachment.value.mediaType == Before(a.contentType, ';')
  }

  /**
   A message reads back as the form it was built from just when sender, recipients and filename hold no line
   break, the subject is not printable text with an encoded word in it, and the filename has no quote and no
   backslash.
   */
  lemma MailComesBackWhen(form: Form, stamp: Stamp)
    requires StampFits(stamp) && (form.attachment.Some? ==> OneLine(form.attachment.value.contentType))
    ensures var read := ReadMail(JoinLines(Lines(form, stamp)));
            (read.Some? && ComesBack(form, read.value)) <==>
              && OneLine(form.from) && OneLine(form.to)
              && !(Printable(form.subject) && HasWord(form.subject))
              && (form.attachment.Some? ==>
                    OneLine(form.attachment.value.filename) && NeedsNoQuoting(form.attachment.value.filename))
  {
    var raw := JoinLines(Lines(form, stamp));
    if HeadersFit(form) {
      MailRoundTrip(form, stamp);
      NamesComeBackWhen(form, stamp);
    } else if ReadMail(raw).Some? {
      ReadsOneLines(raw, ReadMail(raw).value);
      if OneLine(form.from) && OneLine(form.to) {
        BrokenFilename(form, stamp);
      }
    }
  }
}
