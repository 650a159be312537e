/** Reading multipart mail, and the proof that reading undoes the builder. */
module MimeReader {
  import opened Options
  import opened Text
  import opened Base64
  import opened EncodedWord
  import opened Mime

  /******* Multipart bodies *******/

  /** A delimiter line begins with two hyphens and the boundary; the last goes on with two more hyphens. */
  predicate IsDelimiter(line: string, boundary: string) {
    StartsWith(line, "--" + boundary)
  }

  predicate IsClose(line: string, boundary: string) {
    StartsWith(line, "--" + boundary + "--")
  }

  function NextDelimiter(lines: seq<string>, boundary: string): (i: nat)
    ensures i <= |lines|
    ensures i < |lines| ==> IsDelimiter(lines[i], boundary)
    ensures forall j :: 0 <= j < i ==> !IsDelimiter(lines[j], boundary)
  {
    if lines == [] || IsDelimiter(lines[0], boundary) then 0 else 1 + NextDelimiter(lines[1..], boundary)
  }

  /** The parts from one delimiter line on; none when the closing line is missing. */
  function Parts(lines: seq<string>, boundary: string): Option<seq<seq<string>>>
    decreases |lines|
  {
    var i := NextDelimiter(lines, boundary);
    if i == |lines| then None
    else if IsClose(lines[i], boundary) then Some([lines[..i]])
    else
      match Parts(lines[i + 1..], boundary)
      case None => None
      case Some(more) => Some([lines[..i]] + more)
  }

  /** The parts of a body, after its preamble. */
  function ReadBody(lines: seq<string>, boundary: string): Option<seq<seq<string>>> {
    var i := NextDelimiter(lines, boundary);
    if i == |lines| then None
    else if IsClose(lines[i], boundary) then Some([])
    else Parts(lines[i + 1..], boundary)
  }

  ghost predicate Plain(section: seq<string>, boundary: string) {
    forall i :: 0 <= i < |section| ==> !IsDelimiter(section[i], boundary)
  }

  lemma {:induction false} NextDelimiterAfter(section: seq<string>, rest: seq<string>, boundary: string)
    requires Plain(section, boundary) && rest != [] && IsDelimiter(rest[0], boundary)
    ensures NextDelimiter(section + rest, boundary) == |section|
    decreases section
  {
    if section == [] {
      assert section + rest == rest;
    } else {
      assert (section + rest)[1..] == section[1..] + rest;
      NextDelimiterAfter(section[1..], rest, boundary);
    }
  }

  /** Reading the parts undoes delimiting them, when no line of any part looks like a delimiter. */
  lemma {:induction false} PartsOfDelimited(sections: seq<seq<string>>, boundary: string)
    requires sections != [] && forall i :: 0 <= i < |sections| ==> Plain(sections[i], boundary)
    ensures var all := Delimited(sections, boundary);
            all != [] && IsDelimiter(all[0], boundary) && Parts(all[1..], boundary) == Some(sections)
    decreases sections
  {
    var rest := Delimited(sections[1..], boundary);
    var all := Delimited(sections, boundary);
    assert all[1..] == sections[0] + rest;
    assert rest[0] == "--" + boundary || rest[0] == "--" + boundary + "--";
    NextDelimiterAfter(sections[0], rest, boundary);
    assert (sections[0] + rest)[..|sections[0]|] == sections[0];
    if |sections| > 1 {
      PartsOfDelimited(sections[1..], boundary);
      assert (sections[0] + rest)[|sections[0]| + 1..] == rest[1..];
      assert sections == [sections[0]] + sections[1..];
    } else {
      assert sections == [sections[0]];
    }
  }

  lemma BodyOfDelimited(sections: seq<seq<string>>, boundary: string)
    requires sections != [] && forall i :: 0 <= i < |sections| ==> Plain(sections[i], boundary)
    ensures ReadBody(Delimited(sections, boundary), boundary) == Some(sections)
  {
    PartsOfDelimited(sections, boundary);
  }

  /******* Headers and entities *******/

  function FirstBlank(lines: seq<string>): (i: nat)
    ensures i <= |lines|
  {
    if lines == [] || lines[0] == "" then 0 else 1 + FirstBlank(lines[1..])
  }

  lemma {:induction false} FirstBlankAfter(headers: seq<string>, rest: seq<string>)
    requires forall i :: 0 <= i < |headers| ==> headers[i] != ""
    ensures FirstBlank(headers + [""] + rest) == |headers|
    decreases headers
  {
    var all := headers + [""] + rest;
    if headers != [] {
      assert all[1..] == headers[1..] + [""] + rest;
      FirstBlankAfter(headers[1..], rest);
    }
  }

  /** A field's name is what comes before its colon. */
  function ReadField(line: string): Header {
    var name := Before(line, ':');
    var n := |name|;
    if StartsWith(line, name + ": ") then Header(name, line[n + 2..])
    else if StartsWith(line, name + ":") then Header(name, line[n + 1..])
    else Header(name, "")
  }

  function ReadFields(lines: seq<string>): (r: seq<Header>)
    ensures |r| == |lines|
    ensures forall i :: 0 <= i < |lines| ==> r[i] == ReadField(lines[i])
  {
    seq(|lines|, i requires 0 <= i < |lines| => ReadField(lines[i]))
  }

  predicate IsName(name: string) {
    name != "" && name[0] != '-' && OneLine(name) && ':' !in name
  }

  lemma FieldReads(h: Header)
    requires IsName(h.name)
    ensures ReadField(Field(h)) == h
    ensures Field(h) != "" && !StartsWith(Field(h), "--") && (OneLine(h.value) ==> OneLine(Field(h)))
  {
    var line := Field(h);
    BeforeOf(h.name, ':', " " + h.value);
    assert line == h.name + ([':'] + (" " + h.value));
    assert line[..|h.name| + 2] == h.name + ": " && line[|h.name| + 2..] == h.value;
    assert line[0] == h.name[0];
  }

  ghost predicate AreNames(headers: seq<Header>) {
    forall i :: 0 <= i < |headers| ==> IsName(headers[i].name)
  }

  lemma FieldsRead(headers: seq<Header>)
    requires AreNames(headers)
    ensures ReadFields(Fields(headers)) == headers
    ensures forall i :: 0 <= i < |headers| ==> Fields(headers)[i] != ""
    ensures NoHyphens(Fields(headers))
    ensures (forall i :: 0 <= i < |headers| ==> OneLine(headers[i].value)) ==> OneLines(Fields(headers))
  {
    forall i | 0 <= i < |headers|
      ensures ReadField(Fields(headers)[i]) == headers[i] && Fields(headers)[i] != ""
      ensures !StartsWith(Fields(headers)[i], "--") && (OneLine(headers[i].value) ==> OneLine(Fields(headers)[i]))
    {
      FieldReads(headers[i]);
    }
  }

  ghost predicate NoHyphens(section: seq<string>) {
    forall i :: 0 <= i < |section| ==> !StartsWith(section[i], "--")
  }

  ghost predicate OneLines(lines: seq<string>) {
    forall i :: 0 <= i < |lines| ==> OneLine(lines[i])
  }

  /** The first field of that name. */
  function ValueOf(headers: seq<Header>, name: string): Option<string> {
    if headers == [] then None
    else if headers[0].name == name then Some(headers[0].value)
    else ValueOf(headers[1..], name)
  }

  lemma {:induction false} ValueAt(headers: seq<Header>, name: string, i: nat)
    requires i < |headers| && headers[i].name == name
    requires forall j :: 0 <= j < i ==> headers[j].name != name
    ensures ValueOf(headers, name) == Some(headers[i].value)
    decreases i
  {
    if i > 0 {
      ValueAt(headers[1..], name, i - 1);
    }
  }

  lemma {:induction false} NoValue(headers: seq<Header>, name: string)
    requires forall j :: 0 <= j < |headers| ==> headers[j].name != name
    ensures ValueOf(headers, name).None?
    decreases headers
  {
    if headers != [] {
      NoValue(headers[1..], name);
    }
  }

  /** The rest of a quoted string, up to its closing quote; a backslash quotes the next character. */
  function Unquoted(s: string): string {
    if s == "" || s[0] == '\"' then ""
    else if s[0] != '\\' then [s[0]] + Unquoted(s[1..])
    else if |s| == 1 then ""
    else [s[1]] + Unquoted(s[2..])
  }

  /** The quoted value of a header's parameter. */
  function Parameter(value: string, key: string): Option<string> {
    if value == "" then None
    else if StartsWith(value, "; " + key + "=\"") then Some(Unquoted(value[|key| + 4..]))
    else Parameter(value[1..], key)
  }

  lemma {:induction false} ParameterAfter(before: string, key: string, rest: string)
    requires ';' !in before
    ensures Parameter(before + ("; " + key + "=\"" + rest), key) == Some(Unquoted(rest))
    decreases before
  {
    var start := "; " + key + "=\"";
    var value := before + (start + rest);
    if before == "" {
      assert value == start + rest;
      assert value[..|start|] == start && value[|start|..] == rest;
    } else {
      assert value[0] == before[0] && start[0] == ';';
      assert value[1..] == before[1..] + (start + rest);
      ParameterAfter(before[1..], key, rest);
    }
  }

  predicate NeedsNoQuoting(s: string) {
    '\"' !in s && '\\' !in s
  }

  lemma {:induction false} UnquotedIsNoLonger(s: string)
    ensures |Unquoted(s + "\"")| <= |s|
    decreases |s|
  {
    if s != "" && s[0] != '\"' {
      if s[0] != '\\' {
        assert (s + "\"")[1..] == s[1..] + "\"";
        UnquotedIsNoLonger(s[1..]);
      } else if |s| == 1 {
        assert (s + "\"")[2..] == "";
      } else {
        assert (s + "\"")[2..] == s[2..] + "\"";
        UnquotedIsNoLonger(s[2..]);
      }
    }
  }

  /** A name put between quotes as it is reads back as itself just when it has no quote and no backslash. */
  lemma {:induction false} QuotingRoundTrip(s: string)
    ensures Unquoted(s + "\"") == s <==> NeedsNoQuoting(s)
    decreases |s|
  {
    var quoted := s + "\"";
    if s != "" {
      assert quoted[0] == s[0] && s[0] in s;
      if s[0] == '\\' {
        if |s| == 1 {
          assert Unquoted(quoted) == ['\"'] + Unquoted(quoted[2..]);
        } else {
          assert quoted[2..] == s[2..] + "\"" && quoted[1] == s[1];
          UnquotedIsNoLonger(s[2..]);
          assert |Unquoted(quoted)| < |s|;
        }
      } else if s[0] != '\"' {
        assert quoted[1..] == s[1..] + "\"";
        QuotingRoundTrip(s[1..]);
        assert s == [s[0]] + s[1..];
      }
    }
  }

  lemma ParameterOf(before: string, key: string, value: string)
    requires ';' !in before
    ensures Parameter(before + Quoted(key, value), key) == Some(Unquoted(value + "\""))
  {
    ParameterAfter(before, key, value + "\"");
  }

  datatype Entity = Entity(headers: seq<Header>, content: Bytes)

  /** One part: headers, an empty line, and a base64 body in which line breaks mean nothing. */
  function ReadEntity(lines: seq<string>): Option<Entity> {
    var k := FirstBlank(lines);
    var headers := ReadFields(lines[..k]);
    if k == |lines| || ValueOf(headers, "Content-Transfer-Encoding") != Some("base64") then None
    else
      match Decode(Concat(lines[k + 1..]))
      case None => None
      case Some(content) => Some(Entity(headers, content))
  }

  function ReadEntities(sections: seq<seq<string>>): Option<seq<Entity>> {
    if sections == [] then Some([])
    else
      match ReadEntity(sections[0])
      case None => None
      case Some(e) =>
        match ReadEntities(sections[1..])
        case None => None
        case Some(more) => Some([e] + more)
  }

  lemma EntityOf(headers: seq<Header>, body: seq<string>, content: Bytes)
    requires AreNames(headers) && ValueOf(headers, ENCODING) == Some("base64")
    requires Concat(body) == Encode(content)
    ensures ReadEntity(Section(headers, body)) == Some(Entity(headers, content))
  {
    FieldsRead(headers);
    FirstBlankAfter(Fields(headers), body);
    var all := Section(headers, body);
    assert all[..|headers|] == Fields(headers) && all[|headers| + 1..] == body;
    DecodeEncode(content);
  }

  /******* Whole messages *******/

  datatype File = File(filename: string, mediaType: string, content: Bytes)

  datatype Mail = Mail(
    from: Option<string>, to: Option<string>, subject: Option<string>, id: Option<string>, date: Option<string>,
    text: Option<Bytes>, html: Option<Bytes>, attachment: Option<File>)

  /** A field's value without its parameters. */
  function MediaType(headers: seq<Header>): Option<string> {
    match ValueOf(headers, "Content-Type")
    case None => None
    case Some(value) => Some(Before(value, ';'))
  }

  /** UTF-8 text of that type which is not an attachment. */
  predicate IsInline(headers: seq<Header>, mediaType: string) {
    && ValueOf(headers, "Content-Disposition").None? && MediaType(headers) == Some(mediaType)
    && Parameter(ValueOf(headers, "Content-Type").value, "charset") == Some("utf-8")
  }

  /** The first such part. */
  function Inline(entities: seq<Entity>, mediaType: string): Option<Bytes> {
    if entities == [] then None
    else
      var e := entities[0];
      if IsInline(e.headers, mediaType) then Some(e.content)
      else Inline(entities[1..], mediaType)
  }

  function AsFile(e: Entity): Option<File> {
    match ValueOf(e.headers, "Content-Disposition")
    case None => None
    case Some(disposition) =>
      var filename := Parameter(disposition, "filename");
      var mediaType := MediaType(e.headers);
      if Before(disposition, ';') != "attachment" || filename.None? || mediaType.None? then None
      else Some(File(filename.value, mediaType.value, e.content))
  }

  function Attached(entities: seq<Entity>): Option<File> {
    if entities == [] then None
    else if AsFile(entities[0]).Some? then AsFile(entities[0])
    else Attached(entities[1..])
  }

  function ReadMail(raw: string): Option<Mail> {
    var lines := SplitLines(raw);
    var k := FirstBlank(lines);
    if k == |lines| then None else ReadMessage(ReadFields(lines[..k]), lines[k + 1..])
  }

  function ReadMessage(headers: seq<Header>, body: seq<string>): Option<Mail> {
    match ValueOf(headers, "Content-Type")
    case None => None
    case Some(value) =>
      match Parameter(value, "boundary")
      case None => None
      case Some(boundary) =>
        if Before(value, ';') != "multipart/mixed" || ValueOf(headers, "MIME-Version") != Some("1.0") then None
        else
          match ReadBody(body, boundary)
          case None => None
          case Some(sections) => ReadParts(headers, sections)
  }

  function ReadParts(headers: seq<Header>, sections: seq<seq<string>>): Option<Mail> {
    match ReadEntities(sections)
    case None => None
    case Some(entities) =>
      var subject := ValueOf(headers, "Subject");
      Some(Mail(ValueOf(headers, "From"), ValueOf(headers, "To"),
                if subject.Some? then Some(ReadText(subject.value)) else None,
                ValueOf(headers, "Message-ID"), ValueOf(headers, "Date"),
                Inline(entities, "text/plain"), Inline(entities, "text/html"), Attached(entities)))
  }

  /******* The builder's own messages *******/

  /** What the form's author must see to: header values on one line. Nothing is asked of the bodies or the subject. */
  predicate HeadersFit(form: Form) {
    && OneLine(form.from) && OneLine(form.to)
    && (form.attachment.Some? ==> OneLine(form.attachment.value.filename) && OneLine(form.attachment.value.contentType))
  }

  predicate StampFits(stamp: Stamp) {
    IsUuid(stamp.boundaryId) && OneLine(stamp.messageId) && OneLine(stamp.date)
  }

  lemma NoHyphenFirst(s: string)
    requires s == "" || s[0] != '-'
    ensures !StartsWith(s, "--")
  {
    assert "--"[0] == '-';
  }

  lemma EncodedLine(b: Bytes)
    ensures OneLine(Encode(b)) && !StartsWith(Encode(b), "--")
  {
    EncodedShape(b);
    NoHyphenFirst(Encode(b));
  }

  lemma ChunkLines(b: Bytes)
    ensures OneLines(Chunks(Encode(b))) && NoHyphens(Chunks(Encode(b)))
  {
    EncodedShape(b);
    ChunksAre(Encode(b));
    var s, chunks := Encode(b), Chunks(Encode(b));
    forall i | 0 <= i < |chunks|
      ensures OneLine(chunks[i]) && !StartsWith(chunks[i], "--")
    {
      forall j | 0 <= j < |chunks[i]|
        ensures chunks[i][j] != '\r' && chunks[i][j] != '\n' && chunks[i][j] != '-'
      {
        assert chunks[i][j] in s;
      }
      NoHyphenFirst(chunks[i]);
    }
  }

  lemma PartNames()
    ensures IsName(TYPE) && IsName(DISPOSITION) && IsName(ENCODING)
    ensures |TYPE| == 12 && |DISPOSITION| == 19 && |ENCODING| == 25
  {
  }

  lemma BodyHeadersFit(mediaType: string)
    requires OneLine(mediaType)
    ensures var headers := BodyHeaders(mediaType);
            && AreNames(headers) && OneLines(Fields(headers)) && NoHyphens(Fields(headers))
            && ValueOf(headers, ENCODING) == Some("base64")
            && ValueOf(headers, TYPE) == Some(mediaType + Quoted("charset", "utf-8"))
            && ValueOf(headers, DISPOSITION).None?
  {
    Utf8Fits();
    TwoHeadersFit(BodyHeaders(mediaType), mediaType + Quoted("charset", "utf-8"));
    BodyValues(BodyHeaders(mediaType), mediaType + Quoted("charset", "utf-8"));
  }

  lemma Utf8Fits()
    ensures OneLine(Quoted("charset", "utf-8")) && OneLine("base64")
  {
  }

  lemma TwoHeadersFit(headers: seq<Header>, value: string)
    requires headers == [Header(TYPE, value), Header(ENCODING, "base64")] && OneLine(value)
    ensures AreNames(headers) && OneLines(Fields(headers)) && NoHyphens(Fields(headers))
  {
    PartNames();
    Utf8Fits();
    FieldsRead(headers);
  }

  lemma ThreeHeadersFit(headers: seq<Header>, value: string, disposition: string)
    requires headers == [Header(TYPE, value), Header(DISPOSITION, disposition), Header(ENCODING, "base64")]
    ensures AreNames(headers) && NoHyphens(Fields(headers))
    ensures OneLine(value) && OneLine(disposition) ==> OneLines(Fields(headers))
  {
    PartNames();
    Utf8Fits();
    FieldsRead(headers);
  }

  lemma QuotedFits(value: string, key: string, parameter: string)
    requires OneLine(value) && OneLine(key) && OneLine(parameter)
    ensures OneLine(value + Quoted(key, parameter))
  {
  }

  lemma AttachmentHeadersFit(a: Attachment)
    ensures var headers := AttachmentHeaders(a);
            && AreNames(headers) && NoHyphens(Fields(headers))
            && (OneLine(a.filename) && OneLine(a.contentType) ==> OneLines(Fields(headers)))
            && ValueOf(headers, ENCODING) == Some("base64")
            && ValueOf(headers, TYPE) == Some(a.contentType + Quoted("name", a.filename))
            && ValueOf(headers, DISPOSITION) == Some("attachment" + Quoted("filename", a.filename))
  {
    var value, disposition := a.contentType + Quoted("name", a.filename), "attachment" + Quoted("filename", a.filename);
    if OneLine(a.filename) && OneLine(a.contentType) {
      QuotedFits(a.contentType, "name", a.filename);
      QuotedFits("attachment", "filename", a.filename);
    }
    ThreeHeadersFit(AttachmentHeaders(a), value, disposition);
    AttachmentValues(AttachmentHeaders(a), value, disposition);
  }

  lemma BodyValues(headers: seq<Header>, value: string)
    requires headers == [Header(TYPE, value), Header(ENCODING, "base64")]
    ensures ValueOf(headers, ENCODING) == Some("base64")
    ensures ValueOf(headers, TYPE) == Some(value) && ValueOf(headers, DISPOSITION).None?
  {
    PartNames();
    ValueAt(headers, TYPE, 0);
    ValueAt(headers, ENCODING, 1);
    NoValue(headers, DISPOSITION);
  }

  lemma AttachmentValues(headers: seq<Header>, value: string, disposition: string)
    requires headers == [Header(TYPE, value), Header(DISPOSITION, disposition), Header(ENCODING, "base64")]
    ensures ValueOf(headers, ENCODING) == Some("base64")
    ensures ValueOf(headers, TYPE) == Some(value) && ValueOf(headers, DISPOSITION) == Some(disposition)
  {
    PartNames();
    ValueAt(headers, TYPE, 0);
    ValueAt(headers, DISPOSITION, 1);
    ValueAt(headers, ENCODING, 2);
  }

  ghost predicate SectionFits(section: seq<string>) {
    OneLines(section) && NoHyphens(section)
  }

  lemma SectionOf(headers: seq<Header>, body: seq<string>)
    requires OneLines(Fields(headers)) && NoHyphens(Fields(headers)) && OneLines(body) && NoHyphens(body)
    ensures SectionFits(Section(headers, body))
  {
  }

  lemma BodySectionFits(mediaType: string, b: Bytes)
    requires OneLine(mediaType)
    ensures SectionFits(Section(BodyHeaders(mediaType), [Encode(b)]))
  {
    EncodedLine(b);
    BodyHeadersFit(mediaType);
    SectionOf(BodyHeaders(mediaType), [Encode(b)]);
  }

  lemma AttachmentSectionFits(a: Attachment)
    requires OneLine(a.filename) && OneLine(a.contentType)
    ensures SectionFits(Section(AttachmentHeaders(a), Chunks(Encode(a.content))))
  {
    AttachmentHeadersFit(a);
    ChunkLines(a.content);
    SectionOf(AttachmentHeaders(a), Chunks(Encode(a.content)));
  }

  /** Only delimiter lines begin with two hyphens: base64 has none, and every part header begins with a letter. */
  lemma SectionsFit(form: Form)
    requires HeadersFit(form)
    ensures forall i :: 0 <= i < |Sections(form)| ==> SectionFits(Sections(form)[i])
  {
    BodySectionFits(PLAIN, form.text);
    BodySectionFits(HTML, form.html);
    if form.attachment.Some? {
      AttachmentSectionFits(form.attachment.value);
    }
  }

  lemma NoHyphensIsPlain(section: seq<string>, boundary: string)
    requires NoHyphens(section)
    ensures Plain(section, boundary)
  {
    forall i | 0 <= i < |section|
      ensures IsDelimiter(section[i], boundary) ==> StartsWith(section[i], "--")
    {
      assert ("--" + boundary)[..2] == "--";
    }
  }

  lemma {:induction false} DelimitedLines(sections: seq<seq<string>>, boundary: string)
    requires OneLine(boundary) && forall i :: 0 <= i < |sections| ==> OneLines(sections[i])
    ensures OneLines(Delimited(sections, boundary))
    decreases sections
  {
    if sections != [] {
      DelimitedLines(sections[1..], boundary);
    }
  }

  lemma TopHeadersFit(form: Form, stamp: Stamp)
    requires HeadersFit(form) && StampFits(stamp)
    ensures AreNames(TopHeaders(form, stamp)) && OneLines(Fields(TopHeaders(form, stamp)))
  {
    EncodedHeaderIsPrintable(form.subject);
    TopNames();
    PartNames();
    TopValuesFit(form, stamp);
    FieldsRead(TopHeaders(form, stamp));
  }

  lemma TopNames()
    ensures IsName("From") && IsName("To") && IsName("Subject") && IsName("Message-ID") && IsName("Date")
    ensures IsName("MIME-Version")
  {
  }

  lemma TopValuesFit(form: Form, stamp: Stamp)
    requires HeadersFit(form) && StampFits(stamp) && OneLine(EncodeHeader(form.subject))
    ensures forall i :: 0 <= i < |TopHeaders(form, stamp)| ==> OneLine(TopHeaders(form, stamp)[i].value)
  {
    assert OneLine("<" + stamp.messageId + "@local-ses-sns>");
    assert OneLine(Boundary(stamp));
    assert OneLine(MIXED + Quoted("boundary", Boundary(stamp)));
  }

  lemma TopValues(form: Form, stamp: Stamp)
    ensures var headers := TopHeaders(form, stamp);
            && ValueOf(headers, "From") == Some(form.from) && ValueOf(headers, "To") == Some(form.to)
            && ValueOf(headers, "Subject") == Some(EncodeHeader(form.subject))
            && ValueOf(headers, TYPE) == Some(MIXED + Quoted("boundary", Boundary(stamp)))
  {
    var headers := TopHeaders(form, stamp);
    ValueAt(headers, "From", 0);
    ValueAt(headers, "To", 1);
    ValueAt(headers, "Subject", 2);
    assert headers[5].name[0] == 'M';
    ValueAt(headers, TYPE, 6);
  }

  lemma StampValues(form: Form, stamp: Stamp)
    ensures var headers := TopHeaders(form, stamp);
            && ValueOf(headers, "Message-ID") == Some("<" + stamp.messageId + "@local-ses-sns>")
            && ValueOf(headers, "Date") == Some(stamp.date) && ValueOf(headers, "MIME-Version") == Some("1.0")
  {
    var headers := TopHeaders(form, stamp);
    ValueAt(headers, "Message-ID", 3);
    ValueAt(headers, "Date", 4);
    ValueAt(headers, "MIME-Version", 5);
  }

  lemma BoundaryNeedsNoQuoting(stamp: Stamp)
    requires StampFits(stamp)
    ensures NeedsNoQuoting(Boundary(stamp))
  {
  }

  lemma BoundaryReads(stamp: Stamp)
    requires StampFits(stamp)
    ensures Parameter(MIXED + Quoted("boundary", Boundary(stamp)), "boundary") == Some(Boundary(stamp))
    ensures Before(MIXED + Quoted("boundary", Boundary(stamp)), ';') == MIXED
  {
    ParameterOf(MIXED, "boundary", Boundary(stamp));
    BoundaryNeedsNoQuoting(stamp);
    QuotingRoundTrip(Boundary(stamp));
    BeforeQuoted(MIXED, "boundary", Boundary(stamp));
    BeforeNone(MIXED, ';');
  }

  /** Adding a parameter does not change the value before the first one. */
  lemma BeforeQuoted(value: string, key: string, parameter: string)
    ensures Before(value + Quoted(key, parameter), ';') == Before(value, ';')
  {
    var rest := " " + key + "=\"" + (parameter + "\"");
    BeforeSemicolon(value, rest);
    assert value + Quoted(key, parameter) == value + ";" + rest;
  }

  lemma {:induction false} BeforeSemicolon(s: string, rest: string)
    ensures Before(s + ";" + rest, ';') == Before(s, ';')
    decreases s
  {
    if s != "" {
      assert (s + ";" + rest)[1..] == s[1..] + ";" + rest;
      BeforeSemicolon(s[1..], rest);
    }
  }

  /******* The parts *******/

  lemma BodySectionReads(mediaType: string, b: Bytes)
    requires OneLine(mediaType)
    ensures ReadEntity(Section(BodyHeaders(mediaType), [Encode(b)])) == Some(Entity(BodyHeaders(mediaType), b))
  {
    BodyHeadersFit(mediaType);
    assert [Encode(b)][1..] == [];
    EntityOf(BodyHeaders(mediaType), [Encode(b)], b);
  }

  lemma AttachmentSectionReads(a: Attachment)
    ensures ReadEntity(Section(AttachmentHeaders(a), Chunks(Encode(a.content)))) ==
            Some(Entity(AttachmentHeaders(a), a.content))
  {
    AttachmentHeadersFit(a);
    ChunksAre(Encode(a.content));
    EntityOf(AttachmentHeaders(a), Chunks(Encode(a.content)), a.content);
  }

  lemma ReadsFirst(section: seq<string>, e: Entity, sections: seq<seq<string>>, entities: seq<Entity>)
    requires ReadEntity(section) == Some(e) && ReadEntities(sections) == Some(entities)
    ensures ReadEntities([section] + sections) == Some([e] + entities)
  {
    assert ([section] + sections)[1..] == sections;
  }

  lemma ReadsOne(section: seq<string>, e: Entity)
    requires ReadEntity(section) == Some(e)
    ensures ReadEntities([section]) == Some([e])
  {
    ReadsFirst(section, e, [], []);
    assert [section] + [] == [section] && [e] + [] == [e];
  }

  function BodyEntity(mediaType: string, b: Bytes): Entity {
    Entity(BodyHeaders(mediaType), b)
  }

  function HtmlSections(form: Form): seq<seq<string>> {
    if form.html != "" then [Section(BodyHeaders(HTML), [Encode(form.html)])] else []
  }

  function HtmlEntities(form: Form): seq<Entity> {
    if form.html != "" then [BodyEntity(HTML, form.html)] else []
  }

  function FileSections(form: Form): seq<seq<string>> {
    match form.attachment
    case None => []
    case Some(a) => [Section(AttachmentHeaders(a), Chunks(Encode(a.content)))]
  }

  function FileEntities(form: Form): seq<Entity> {
    match form.attachment case None => [] case Some(a) => [Entity(AttachmentHeaders(a), a.content)]
  }

  function Entities(form: Form): seq<Entity> {
    [BodyEntity(PLAIN, form.text)] + (HtmlEntities(form) + FileEntities(form))
  }

  lemma SectionsAre(form: Form)
    ensures Sections(form) ==
            [Section(BodyHeaders(PLAIN), [Encode(form.text)])] + (HtmlSections(form) + FileSections(form))
  {
  }

  lemma FilesRead(form: Form)
    ensures ReadEntities(FileSections(form)) == Some(FileEntities(form))
  {
    match form.attachment
    case None =>
    case Some(a) =>
      AttachmentSectionReads(a);
      ReadsOne(Section(AttachmentHeaders(a), Chunks(Encode(a.content))), Entity(AttachmentHeaders(a), a.content));
  }

  lemma HtmlFirst(html: Bytes, sections: seq<seq<string>>, entities: seq<Entity>)
    requires ReadEntities(sections) == Some(entities)
    ensures ReadEntities([Section(BodyHeaders(HTML), [Encode(html)])] + sections) ==
            Some([BodyEntity(HTML, html)] + entities)
  {
    BodySectionReads(HTML, html);
    ReadsFirst(Section(BodyHeaders(HTML), [Encode(html)]), BodyEntity(HTML, html), sections, entities);
  }

  lemma HtmlReads(form: Form)
    ensures ReadEntities(HtmlSections(form) + FileSections(form)) == Some(HtmlEntities(form) + FileEntities(form))
  {
    FilesRead(form);
    if form.html != "" {
      HtmlFirst(form.html, FileSections(form), FileEntities(form));
    } else {
      assert HtmlSections(form) + FileSections(form) == FileSections(form);
      assert HtmlEntities(form) + FileEntities(form) == FileEntities(form);
    }
  }

  lemma TextReads(form: Form, sections: seq<seq<string>>, entities: seq<Entity>)
    requires ReadEntities(sections) == Some(entities)
    ensures ReadEntities([Section(BodyHeaders(PLAIN), [Encode(form.text)])] + sections) ==
            Some([BodyEntity(PLAIN, form.text)] + entities)
  {
    BodySectionReads(PLAIN, form.text);
    ReadsFirst(Section(BodyHeaders(PLAIN), [Encode(form.text)]), BodyEntity(PLAIN, form.text), sections, entities);
  }

  lemma EntitiesRead(form: Form)
    ensures ReadEntities(Sections(form)) == Some(Entities(form))
  {
    HtmlReads(form);
    var sections, entities := HtmlSections(form) + FileSections(form), HtmlEntities(form) + FileEntities(form);
    TextReads(form, sections, entities);
    SectionsAre(form);
  }

  function FileOf(a: Attachment): File {
    File(Unquoted(a.filename + "\""), Before(a.contentType, ';'), a.content)
  }

  lemma FileReads(a: Attachment)
    ensures AsFile(Entity(AttachmentHeaders(a), a.content)) == Some(FileOf(a))
    ensures ValueOf(AttachmentHeaders(a), DISPOSITION).Some?
  {
    AttachmentHeadersFit(a);
    ParameterOf("attachment", "filename", a.filename);
    BeforeQuoted("attachment", "filename", a.filename);
    BeforeNone("attachment", ';');
    BeforeQuoted(a.contentType, "name", a.filename);
  }

  lemma BodyReads(mediaType: string, b: Bytes)
    requires OneLine(mediaType) && ';' !in mediaType
    ensures IsInline(BodyHeaders(mediaType), mediaType)
    ensures AsFile(Entity(BodyHeaders(mediaType), b)).None?
  {
    BodyHeadersFit(mediaType);
    ParameterOf(mediaType, "charset", "utf-8");
    QuotingRoundTrip("utf-8");
    BeforeQuoted(mediaType, "charset", "utf-8");
    BeforeNone(mediaType, ';');
  }

  /** The first inline text, the first inline html, the first attachment: one of each kind at most. */
  lemma {:induction false} PartsFound(entities: seq<Entity>, text: Entity, html: seq<Entity>, file: seq<Entity>)
    requires entities == [text] + (html + file) && |html| <= 1 && |file| <= 1
    requires IsInline(text.headers, PLAIN) && (html != [] ==> IsInline(html[0].headers, HTML))
    requires file != [] ==> ValueOf(file[0].headers, DISPOSITION).Some? && AsFile(file[0]).Some?
    ensures Inline(entities, PLAIN) == Some(text.content)
    ensures Inline(entities, HTML) == if html != [] then Some(html[0].content) else None
    ensures Attached(entities) == if file != [] then AsFile(file[0]) else None
  {
    var rest := entities[1..];
    assert rest == html + file;
    assert |PLAIN| == 10 && |HTML| == 9;
    if html != [] {
      assert rest[0] == html[0] && rest[1..] == file;
    } else {
      assert rest == file;
    }
    assert Inline(entities, HTML) == Inline(rest, HTML) && Attached(entities) == Attached(rest);
    assert Attached(rest) == Attached(file);
    if file != [] {
      assert file[1..] == [];
    }
    assert Inline(file, HTML).None?;
  }

  lemma EntitiesHold(form: Form)
    ensures var entities := Entities(form);
            && Inline(entities, PLAIN) == Some(form.text)
            && Inline(entities, HTML) == (if form.html != "" then Some(form.html) else None)
            && Attached(entities) == (match form.attachment case None => None case Some(a) => Some(FileOf(a)))
  {
    BodyReads(PLAIN, form.text);
    BodyReads(HTML, form.html);
    if form.attachment.Some? {
      FileReads(form.attachment.value);
    }
    PartsFound(Entities(form), BodyEntity(PLAIN, form.text), HtmlEntities(form), FileEntities(form));
  }

  /******* The round trip *******/

  function MailOf(form: Form, stamp: Stamp): Mail {
    Mail(Some(form.from), Some(form.to), Some(ReadText(EncodeHeader(form.subject))),
         Some("<" + stamp.messageId + "@local-ses-sns>"), Some(stamp.date), Some(form.text),
         if form.html != "" then Some(form.html) else None,
         match form.attachment case None => None case Some(a) => Some(FileOf(a)))
  }

  lemma SplitsIntoLines(form: Form, stamp: Stamp)
    requires HeadersFit(form) && StampFits(stamp)
    ensures SplitLines(JoinLines(Lines(form, stamp))) == Lines(form, stamp)
  {
    TopHeadersFit(form, stamp);
    SectionsFit(form);
    DelimitedLines(Sections(form), Boundary(stamp));
    SplitJoin(Lines(form, stamp));
  }

  lemma BodyReadsBack(form: Form, boundary: string)
    requires HeadersFit(form)
    ensures ReadBody(Delimited(Sections(form), boundary), boundary) == Some(Sections(form))
  {
    SectionsFit(form);
    forall i | 0 <= i < |Sections(form)|
      ensures Plain(Sections(form)[i], boundary)
    {
      NoHyphensIsPlain(Sections(form)[i], boundary);
    }
    BodyOfDelimited(Sections(form), boundary);
  }

  lemma MessageReads(form: Form, stamp: Stamp)
    requires HeadersFit(form) && StampFits(stamp)
    ensures ReadMessage(TopHeaders(form, stamp), Delimited(Sections(form), Boundary(stamp))) ==
            Some(MailOf(form, stamp))
  {
    TopValues(form, stamp);
    StampValues(form, stamp);
    BoundaryReads(stamp);
    BodyReadsBack(form, Boundary(stamp));
    EntitiesRead(form);
    EntitiesHold(form);
  }

  /** Reading what was built returns the form: sender, recipients, text, non-empty html and the attachment's bytes. */
  lemma MailRoundTrip(form: Form, stamp: Stamp)
    requires HeadersFit(form) && StampFits(stamp)
    ensures ReadMail(JoinLines(Lines(form, stamp))) == Some(MailOf(form, stamp))
  {
    var headers, body := TopHeaders(form, stamp), Delimited(Sections(form), Boundary(stamp));
    var lines := Lines(form, stamp);
    SplitsIntoLines(form, stamp);
    TopHeadersFit(form, stamp);
    FieldsRead(headers);
    FirstBlankAfter(Fields(headers), body);
    assert lines[..|headers|] == Fields(headers) && lines[|headers| + 1..] == body;
    MessageReads(form, stamp);
  }

  /** The subject and the filename, the only two fields that may not come back as they went in. */
  predicate NamesComeBack(form: Form, mail: Mail) {
    && mail.subject == Some(form.subject)
    && (form.attachment.Some? ==>
          mail.attachment.Some? && mail.attachment.value.filename == form.attachment.value.filename)
  }

  /**
   They do just when the subject is not printable text with an encoded word in it and the filename has no quote
   and no backslash.
   */
  lemma NamesComeBackWhen(form: Form, stamp: Stamp)
    requires HeadersFit(form) && StampFits(stamp)
    ensures ReadMail(JoinLines(Lines(form, stamp))).Some?
    ensures NamesComeBack(form, ReadMail(JoinLines(Lines(form, stamp))).value) <==>
              !(Printable(form.subject) && HasWord(form.subject)) &&
              (form.attachment.Some? ==> NeedsNoQuoting(form.attachment.value.filename))
  {
    MailRoundTrip(form, stamp);
    HeaderRoundTrip(form.subject);
    if form.attachment.Some? {
      QuotingRoundTrip(form.attachment.value.filename);
    }
  }
}
