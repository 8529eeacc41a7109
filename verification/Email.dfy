/** Printing an email message, and a parser that reads it back. */
module Email {
  import opened Wrappers
  import opened Strings
  import opened Text

  datatype BodyFormat = Unset | HTML | PlainText

  datatype Target = Target(
    from: string,
    to: seq<string>,
    cc: seq<string>,
    bcc: seq<string>,
    headers: map<string, string>,
    format: BodyFormat
  )

  /** net/mail and mime: the canonical form of a mailbox, None if it does not parse, and Q-encoding. */
  datatype Library = Library(canonical: string -> Option<string>, encode: string -> string) {
    /** What the libraries promise: neither of them writes line breaks. */
    ghost predicate Clean() {
      && (forall s :: canonical(s).Some? ==> !ContainsNewline(canonical(s).value))
      && (forall s :: !ContainsNewline(encode(s)))
    }
  }

  datatype Field = Field(name: string, value: string)

  // ---------------------------------------------------------------- validation

  predicate ValidFieldNameChar(c: char) {
    'a' <= c <= 'z' || 'A' <= c <= 'Z' || '0' <= c <= '9'
    || c in {'!', '#', '$', '%', '&', '\'', '*', '+', '-', '.', '^', '_', '`', '|', '~'}
  }

  predicate ValidFieldName(name: string) {
    name != "" && TrimSpace(name) == name && forall i | 0 <= i < |name| :: ValidFieldNameChar(name[i])
  }

  /** The check for surrounding white space never decides: no allowed character is white space. */
  lemma ValidFieldNameMeaning(name: string)
    ensures ValidFieldName(name) <==> name != "" && forall i | 0 <= i < |name| :: ValidFieldNameChar(name[i])
    ensures ValidFieldName(name) ==>
              forall i | 0 <= i < |name| :: name[i] != ':' && !IsSpace(name[i]) && !IsBreak(name[i])
  {
    if name != "" && forall i | 0 <= i < |name| :: ValidFieldNameChar(name[i]) {
      assert ValidFieldNameChar(name[0]) && ValidFieldNameChar(name[|name| - 1]);
      TrimmedAlready(name);
    }
  }

  const RESERVED: set<string> :=
    {"from", "to", "cc", "bcc", "subject", "mime-version", "content-type", "content-transfer-encoding"}

  predicate IsReserved(name: string) {
    ToLower(name) in RESERVED
  }

  /** name is lower, given in lower case, in some letter case. */
  predicate SameLetters(name: string, lower: string) {
    |name| == |lower|
    && forall i | 0 <= i < |name| ::
         name[i] == lower[i] || ('A' <= name[i] <= 'Z' && lower[i] as int == name[i] as int + 32)
  }

  /** The names of the fields a message has anyway. */
  predicate IsStandardName(name: string) {
    || SameLetters(name, "from") || SameLetters(name, "to") || SameLetters(name, "cc") || SameLetters(name, "bcc")
    || SameLetters(name, "subject") || SameLetters(name, "mime-version") || SameLetters(name, "content-type")
    || SameLetters(name, "content-transfer-encoding")
  }

  predicate LowerLetters(s: string) {
    s != "" && forall i | 0 <= i < |s| :: s[i] == '-' || 'a' <= s[i] <= 'z'
  }

  lemma FoldMeaning(name: string, lower: string)
    requires LowerLetters(lower)
    ensures ToLower(name) == lower <==> SameLetters(name, lower)
    ensures SameLetters(name, lower) ==> ValidFieldName(name)
  {
    if ToLower(name) == lower {
      assert forall i | 0 <= i < |name| :: LowerChar(name[i]) == lower[i];
    }
    if SameLetters(name, lower) {
      assert forall i | 0 <= i < |name| :: LowerChar(name[i]) == lower[i];
      ValidFieldNameMeaning(name);
    }
  }

  lemma ShortNamesAreLower()
    ensures LowerLetters("from") && LowerLetters("to") && LowerLetters("cc") && LowerLetters("bcc") && LowerLetters("subject")
  {
  }

  lemma LongNamesAreLower()
    ensures LowerLetters("mime-version") && LowerLetters("content-type") && LowerLetters("content-transfer-encoding")
  {
  }

  /** A custom header is refused as reserved iff its name is, in some letter case, one of the eight standard ones. */
  lemma ReservedMeaning(name: string, value: string)
    ensures ProblemOf(name, value) == Some(ReservedName) <==> IsStandardName(name)
    ensures IsReserved(name) <==> IsStandardName(name)
  {
    ShortNamesAreLower();
    LongNamesAreLower();
    FoldMeaning(name, "from");
    FoldMeaning(name, "to");
    FoldMeaning(name, "cc");
    FoldMeaning(name, "bcc");
    FoldMeaning(name, "subject");
    FoldMeaning(name, "mime-version");
    FoldMeaning(name, "content-type");
    FoldMeaning(name, "content-transfer-encoding");
  }

  datatype HeaderProblem = EmptyName | SpacedName | BadCharacter | ReservedName | NewlineInValue

  /** The first check a custom header fails. */
  function ProblemOf(name: string, value: string): Option<HeaderProblem> {
    if name == "" then Some(EmptyName)
    else if TrimSpace(name) != name then Some(SpacedName)
    else if !ValidFieldName(name) then Some(BadCharacter)
    else if IsReserved(name) then Some(ReservedName)
    else if ContainsNewline(value) then Some(NewlineInValue)
    else None
  }

  ghost predicate ValidHeaders(headers: map<string, string>) {
    forall k | k in headers :: ValidFieldName(k) && !IsReserved(k) && !ContainsNewline(headers[k])
  }

  /** `validateHeaders`: the problem of some custom header, in whatever order the map gives them. */
  method ValidateHeaders(headers: map<string, string>) returns (problem: Option<(string, HeaderProblem)>)
    ensures problem == None <==> ValidHeaders(headers)
    ensures forall k | k in headers && IsStandardName(k) :: problem.Some?
    ensures problem.Some? ==>
      problem.value.0 in headers && ProblemOf(problem.value.0, headers[problem.value.0]) == Some(problem.value.1)
  {
    var rest := headers.Keys;
    while rest != {}
      invariant rest <= headers.Keys
      invariant forall k | k in headers && k !in rest :: ProblemOf(k, headers[k]) == None
      decreases |rest|
    {
      var name :| name in rest;
      rest := rest - {name};
      var p := ProblemOf(name, headers[name]);
      if p.Some? {
        assert !(ValidFieldName(name) && !IsReserved(name) && !ContainsNewline(headers[name]));
        return Some((name, p.value));
      }
    }
    forall k | k in headers
      ensures !IsStandardName(k)
    {
      ReservedMeaning(k, headers[k]);
    }
    problem := None;
  }

  /** The characters of header names, spelled out. */
  lemma FieldNameChars(c: char)
    ensures ValidFieldNameChar(c) <==>
      c in {'!', '#', '$', '%', '&', '\'', '*', '+', '-', '.', '^', '_', '`', '|', '~',
            '0', '1', '2', '3', '4', '5', '6', '7', '8', '9',
            'A', 'B', 'C', 'D', 'E', 'F', 'G', 'H', 'I', 'J', 'K', 'L', 'M',
            'N', 'O', 'P', 'Q', 'R', 'S', 'T', 'U', 'V', 'W', 'X', 'Y', 'Z',
            'a', 'b', 'c', 'd', 'e', 'f', 'g', 'h', 'i', 'j', 'k', 'l', 'm',
            'n', 'o', 'p', 'q', 'r', 's', 't', 'u', 'v', 'w', 'x', 'y', 'z'}
  {
  }

  /** `parseMailbox`. */
  function ParseMailbox(lib: Library, value: string): Option<string> {
    if ContainsNewline(value) then None else lib.canonical(TrimSpace(value))
  }

  /** `envelopeRecipients`: everyone the message is delivered to. */
  function EnvelopeRecipients(target: Target): seq<string> {
    target.to + target.cc + target.bcc
  }

  /** Every recipient is in the envelope once for each time it is listed: To first, then Cc, then Bcc. */
  lemma EnvelopeMeaning(target: Target)
    ensures multiset(EnvelopeRecipients(target)) == multiset(target.to) + multiset(target.cc) + multiset(target.bcc)
    ensures target.to + target.cc <= EnvelopeRecipients(target) && target.to <= EnvelopeRecipients(target)
  {
    assert EnvelopeRecipients(target)[..|target.to + target.cc|] == target.to + target.cc;
  }

  /** What a target must satisfy before a message is built from it. */
  ghost predicate Validated(lib: Library, target: Target) {
    && ParseMailbox(lib, target.from).Some?
    && EnvelopeRecipients(target) != []
    && (forall r | r in EnvelopeRecipients(target) :: ParseMailbox(lib, r).Some?)
    && ValidHeaders(target.headers)
  }

  /** No address of a validated target holds a line break, and each is a single mailbox once trimmed. */
  lemma AddressesAreMailboxes(lib: Library, target: Target)
    requires Validated(lib, target)
    ensures forall r | r == target.from || r in target.to || r in target.cc || r in target.bcc ::
              lib.canonical(TrimSpace(r)).Some? && forall i | 0 <= i < |r| :: r[i] != '\r' && r[i] != '\n'
  {
    assert forall r | r in target.to || r in target.cc || r in target.bcc :: r in EnvelopeRecipients(target);
  }

  // ---------------------------------------------------------------- printing

  function FormatMailbox(lib: Library, value: string): string {
    match ParseMailbox(lib, value) case None => value case Some(m) => m
  }

  /** strings.Join. */
  function JoinWith(parts: seq<string>, separator: string): string {
    if parts == [] then ""
    else if |parts| == 1 then parts[0]
    else parts[0] + separator + JoinWith(parts[1..], separator)
  }

  function Formatted(lib: Library, values: seq<string>): seq<string> {
    seq(|values|, i requires 0 <= i < |values| => FormatMailbox(lib, values[i]))
  }

  function MailboxList(lib: Library, values: seq<string>): string {
    JoinWith(Formatted(lib, values), ", ")
  }

  /** `formatMailboxes`. */
  method FormatMailboxes(lib: Library, values: seq<string>) returns (list: string)
    ensures list == MailboxList(lib, values)
  {
    var formatted: seq<string> := [];
    for n := 0 to |values|
      invariant formatted == Formatted(lib, values[..n])
    {
      formatted := formatted + [FormatMailbox(lib, values[n])];
    }
    assert values[..|values|] == values;
    list := JoinWith(formatted, ", ");
  }

  /** A list of mailboxes is the formatted mailboxes with a comma and a space between them. */
  lemma {:induction false} MailboxListMeaning(lib: Library, first: seq<string>, rest: seq<string>)
    requires first != [] && rest != []
    ensures MailboxList(lib, []) == ""
    ensures MailboxList(lib, [first[0]]) == FormatMailbox(lib, first[0])
    ensures MailboxList(lib, first + rest) == MailboxList(lib, first) + ", " + MailboxList(lib, rest)
    decreases |first|
  {
    var all := Formatted(lib, first + rest);
    assert all[1..] == Formatted(lib, first[1..] + rest);
    assert Formatted(lib, first)[1..] == Formatted(lib, first[1..]);
    if |first| == 1 {
      assert first[1..] + rest == rest;
    } else {
      MailboxListMeaning(lib, first[1..], rest);
      assert (first + rest)[1..] == first[1..] + rest;
    }
  }

  predicate IsASCII(s: string) {
    forall i | 0 <= i < |s| :: s[i] <= '\U{7F}'
  }

  function EncodeSubject(lib: Library, subject: string): string {
    if IsASCII(subject) then subject else lib.encode(subject)
  }

  function ContentType(format: BodyFormat): string {
    if format == PlainText then "text/plain" else "text/html"
  }

  function StandardFields(lib: Library, target: Target, subject: string): seq<Field> {
    [ Field("From", FormatMailbox(lib, target.from)),
      Field("To", MailboxList(lib, target.to)),
      Field("Subject", EncodeSubject(lib, subject)),
      Field("MIME-Version", "1.0"),
      Field("Content-Type", ContentType(target.format) + "; charset=utf-8"),
      Field("Content-Transfer-Encoding", "8bit") ]
  }

  function CcFields(lib: Library, target: Target): seq<Field> {
    if target.cc == [] then [] else [Field("Cc", MailboxList(lib, target.cc))]
  }

  function Identity(s: string): string {
    s
  }

  /** The names of the custom headers in sorted order, each once. */
  ghost predicate SortedNames(headers: map<string, string>, names: seq<string>) {
    Distinct(names) && SortedBy(names, Identity) && forall x :: x in names <==> x in headers
  }

  /** The keys of a map in some order. */
  ghost function KeySeq(keys: set<string>): (r: seq<string>)
    ensures Distinct(r) && forall x :: x in r <==> x in keys
  {
    if keys == {} then []
    else
      var k :| k in keys;
      [k] + KeySeq(keys - {k})
  }

  lemma NamesExist(headers: map<string, string>)
    ensures exists names :: SortedNames(headers, names)
  {
    var keys := KeySeq(headers.Keys);
    SortSorts(keys, Identity);
    PermutationKeepsDistinct(keys, Sort(keys, Identity));
    assert SortedNames(headers, Sort(keys, Identity));
  }

  /** The sorted names of the custom headers; `SortedNamesAreUnique` shows that there is one such list. */
  ghost function Names(headers: map<string, string>): (names: seq<string>)
    ensures SortedNames(headers, names)
  {
    NamesExist(headers);
    var names :| SortedNames(headers, names);
    names
  }

  function CustomFields(headers: map<string, string>, names: seq<string>): (r: seq<Field>)
    requires forall i | 0 <= i < |names| :: names[i] in headers
    ensures |r| == |names|
  {
    seq(|names|, i requires 0 <= i < |names| => Field(names[i], headers[names[i]]))
  }

  /** The header of a message: standard fields, Cc if there is one, custom fields. */
  ghost function HeaderFields(lib: Library, target: Target, subject: string): seq<Field> {
    StandardFields(lib, target, subject) + CcFields(lib, target) + CustomFields(target.headers, Names(target.headers))
  }

  function Line(f: Field): string {
    f.name + ": " + f.value
  }

  function FieldLines(fields: seq<Field>): (r: seq<string>)
    ensures |r| == |fields|
  {
    seq(|fields|, i requires 0 <= i < |fields| => Line(fields[i]))
  }

  /** A message: header lines, a blank line, the body. */
  function Printed(fields: seq<Field>, body: string): string {
    Terminated(FieldLines(fields)) + CRLF + SentBody(body)
  }

  /** `appendHeaders`: the custom headers in sorted order. */
  method AppendHeaders(lines: seq<string>, headers: map<string, string>) returns (out: seq<string>)
    ensures out == lines + FieldLines(CustomFields(headers, Names(headers)))
  {
    out := lines;
    if |headers| == 0 {
      NoNames(headers, Names(headers));
      return;
    }
    var names := SortKeys(headers);
    for n := 0 to |names|
      invariant out == lines + FieldLines(CustomFields(headers, names[..n]))
    {
      OneMoreLine(headers, names, n);
      out := out + [names[n] + ": " + headers[names[n]]];
    }
    assert names[..|names|] == names;
  }

  lemma NoNames(headers: map<string, string>, names: seq<string>)
    requires SortedNames(headers, names)
    ensures names == [] <==> headers == map[]
  {
    assert names != [] ==> names[0] in headers;
    assert forall k | k in headers :: k in names;
  }

  lemma OneMoreLine(headers: map<string, string>, names: seq<string>, n: nat)
    requires n < |names| && forall i | 0 <= i < |names| :: names[i] in headers
    ensures FieldLines(CustomFields(headers, names[..n + 1]))
         == FieldLines(CustomFields(headers, names[..n])) + [names[n] + ": " + headers[names[n]]]
  {
  }

  /** slices.Sorted over the keys of a map. */
  method SortKeys(headers: map<string, string>) returns (names: seq<string>)
    ensures names == Names(headers)
  {
    names := [];
    var rest := headers.Keys;
    while rest != {}
      invariant rest <= headers.Keys
      invariant Distinct(names) && forall x :: x in names <==> x in headers && x !in rest
      decreases |rest|
    {
      var name :| name in rest;
      rest := rest - {name};
      names := names + [name];
    }
    SortSorts(names, Identity);
    PermutationKeepsDistinct(names, Sort(names, Identity));
    names := Sort(names, Identity);
    SortedNamesAreUnique(headers, names, Names(headers));
  }

  /** `buildEmail`. */
  method BuildEmail(lib: Library, target: Target, subject: string, body: string) returns (message: string)
    ensures message == Printed(HeaderFields(lib, target, subject), body)
  {
    var to := FormatMailboxes(lib, target.to);
    var headers := [
      "From: " + FormatMailbox(lib, target.from),
      "To: " + to,
      "Subject: " + EncodeSubject(lib, subject),
      "MIME-Version: 1.0",
      "Content-Type: " + ContentType(target.format) + "; charset=utf-8",
      "Content-Transfer-Encoding: 8bit"
    ];
    StandardLines(lib, target, subject, headers);
    if |target.cc| > 0 {
      var cc := FormatMailboxes(lib, target.cc);
      headers := headers + ["Cc: " + cc];
    }
    CcLine(lib, target, FieldLines(StandardFields(lib, target, subject)), headers);
    headers := AppendHeaders(headers, target.headers);
    HeaderLines(lib, target, subject);
    var buf := WriteHeaders(headers, HeaderFields(lib, target, subject));
    buf := buf + CRLF;
    var normalizedBody := NormalizeBody(body);
    buf := buf + normalizedBody;
    if !HasSuffix(normalizedBody, CRLF) {
      buf := buf + CRLF;
    }
    message := buf;
  }

  /** The loop of `buildEmail` that writes header lines and would skip blank ones. */
  method WriteHeaders(headers: seq<string>, ghost fields: seq<Field>) returns (buf: string)
    requires headers == FieldLines(fields)
    ensures buf == Terminated(headers)
  {
    buf := "";
    for n := 0 to |headers|
      invariant buf + Terminated(headers[n..]) == Terminated(headers)
    {
      FieldLinesAreNotBlank(fields[n]);
      if TrimSpace(headers[n]) == "" {
        continue;
      }
      assert headers[n..][1..] == headers[n + 1..];
      buf := buf + headers[n];
      buf := buf + CRLF;
    }
  }

  /** A literal that starts with a name and a colon is the line of that field. */
  lemma LineOf(prefix: string, name: string, value: string)
    requires prefix == name + ": "
    ensures prefix + value == Line(Field(name, value))
  {
  }

  lemma AddressLines(from: string, to: string, subject: string, cc: string)
    ensures "From: " + from == Line(Field("From", from))
    ensures "To: " + to == Line(Field("To", to))
    ensures "Subject: " + subject == Line(Field("Subject", subject))
    ensures "Cc: " + cc == Line(Field("Cc", cc))
  {
    LineOf("From: ", "From", from);
    LineOf("To: ", "To", to);
    LineOf("Subject: ", "Subject", subject);
    LineOf("Cc: ", "Cc", cc);
  }

  lemma MimeLines(contentType: string)
    ensures "MIME-Version: 1.0" == Line(Field("MIME-Version", "1.0"))
    ensures "Content-Type: " + contentType + "; charset=utf-8" == Line(Field("Content-Type", contentType + "; charset=utf-8"))
    ensures "Content-Transfer-Encoding: 8bit" == Line(Field("Content-Transfer-Encoding", "8bit"))
  {
    LineOf("Content-Type: ", "Content-Type", contentType + "; charset=utf-8");
    assert ("Content-Type: " + contentType) + "; charset=utf-8" == "Content-Type: " + (contentType + "; charset=utf-8");
  }

  lemma StandardLines(lib: Library, target: Target, subject: string, lines: seq<string>)
    requires lines == [
      "From: " + FormatMailbox(lib, target.from),
      "To: " + MailboxList(lib, target.to),
      "Subject: " + EncodeSubject(lib, subject),
      "MIME-Version: 1.0",
      "Content-Type: " + ContentType(target.format) + "; charset=utf-8",
      "Content-Transfer-Encoding: 8bit"
    ]
    ensures lines == FieldLines(StandardFields(lib, target, subject))
  {
    AddressLines(FormatMailbox(lib, target.from), MailboxList(lib, target.to), EncodeSubject(lib, subject), "");
    MimeLines(ContentType(target.format));
  }

  lemma CcLine(lib: Library, target: Target, before: seq<string>, after: seq<string>)
    requires after == if |target.cc| > 0 then before + ["Cc: " + MailboxList(lib, target.cc)] else before
    ensures after == before + FieldLines(CcFields(lib, target))
  {
    AddressLines("", "", "", MailboxList(lib, target.cc));
  }

  lemma HeaderLines(lib: Library, target: Target, subject: string)
    ensures FieldLines(HeaderFields(lib, target, subject))
         == FieldLines(StandardFields(lib, target, subject)) + FieldLines(CcFields(lib, target))
            + FieldLines(CustomFields(target.headers, Names(target.headers)))
  {
  }

  /** A header line is never blank: it holds a colon. */
  lemma FieldLinesAreNotBlank(f: Field)
    ensures TrimSpace(Line(f)) != ""
  {
    assert Line(f)[|f.name|] == ':';
    TrimKeepsText(Line(f), |f.name|);
  }

  /** The order of the custom headers is determined by the headers alone, so equal inputs print equally. */
  lemma {:induction false} SortedNamesAreUnique(headers: map<string, string>, a: seq<string>, b: seq<string>)
    requires SortedNames(headers, a) && SortedNames(headers, b)
    ensures a == b
    decreases |a|
  {
    NoNames(headers, a);
    NoNames(headers, b);
    if a == [] {
      return;
    }
    var last := SameLargest(headers, a, b);
    SortedNamesAreUnique(headers - {last}, a[..|a| - 1], b[..|b| - 1]);
    assert a == a[..|a| - 1] + [last] && b == b[..|b| - 1] + [last];
  }

  lemma SameLargest(headers: map<string, string>, a: seq<string>, b: seq<string>) returns (last: string)
    requires SortedNames(headers, a) && SortedNames(headers, b) && a != [] && b != []
    ensures a[|a| - 1] == last == b[|b| - 1]
    ensures SortedNames(headers - {last}, a[..|a| - 1]) && SortedNames(headers - {last}, b[..|b| - 1])
  {
    last := a[|a| - 1];
    LargestName(headers, a, b[|b| - 1]);
    LargestName(headers, b, last);
    AtMostAntisymmetric(last, b[|b| - 1]);
    WithoutLargest(headers, a);
    WithoutLargest(headers, b);
  }

  lemma LargestName(headers: map<string, string>, names: seq<string>, x: string)
    requires SortedNames(headers, names) && x in headers && names != []
    ensures AtMost(x, names[|names| - 1])
  {
    assert x in names;
    var n := |names| - 1;
    forall i | 0 <= i < |names|
      ensures AtMost(names[i], names[n])
    {
      if i == n {
        AtMostTotal(names[n], names[n]);
      } else {
        assert AtMost(Identity(names[i]), Identity(names[n]));
      }
    }
  }

  lemma WithoutLargest(headers: map<string, string>, names: seq<string>)
    requires SortedNames(headers, names) && names != []
    ensures SortedNames(headers - {names[|names| - 1]}, names[..|names| - 1])
  {
    var n := |names| - 1;
    assert names == names[..n] + [names[n]];
    assert forall i, j | 0 <= i < j < n :: AtMost(Identity(names[i]), Identity(names[j]));
  }

  // ---------------------------------------------------------------- the parser

  datatype Split = Split(line: string, rest: string)

  /** The text up to the first CRLF, and what follows it. */
  function TakeLine(s: string): (r: Option<Split>)
    ensures r.Some? ==> |r.value.rest| < |s|
  {
    if s == "" then None
    else if CRLF <= s then Some(Split("", s[2..]))
    else
      match TakeLine(s[1..])
      case None => None
      case Some(p) => Some(Split([s[0]] + p.line, p.rest))
  }

  /** A header line split at its first colon; one space after the colon belongs to the syntax. */
  function ParseField(line: string): Option<Field> {
    if line == "" then None
    else if line[0] == ':' then Some(Field("", if |line| > 1 && line[1] == ' ' then line[2..] else line[1..]))
    else
      match ParseField(line[1..])
      case None => None
      case Some(f) => Some(Field([line[0]] + f.name, f.value))
  }

  datatype Message = Message(fields: seq<Field>, body: string)

  /** Header lines up to the first blank line; the rest is the body. */
  function ParseMessage(s: string): Option<Message>
    decreases |s|
  {
    match TakeLine(s)
    case None => None
    case Some(p) =>
      if p.line == "" then Some(Message([], p.rest))
      else
        match (ParseField(p.line), ParseMessage(p.rest))
        case (Some(f), Some(m)) => Some(Message([f] + m.fields, m.body))
        case _ => None
  }

  /** A field that survives printing: a name without colons and nothing that breaks the line. */
  ghost predicate Printable(f: Field) {
    && (forall i | 0 <= i < |f.name| :: f.name[i] != ':' && !IsBreak(f.name[i]))
    && !ContainsNewline(f.value)
  }

  lemma {:induction false} TakesCleanLine(line: string, rest: string)
    requires !ContainsNewline(line)
    ensures TakeLine(line + CRLF + rest) == Some(Split(line, rest))
    decreases |line|
  {
    var s := line + CRLF + rest;
    if line == "" {
      assert s == CRLF + rest;
      assert s[2..] == rest;
    } else {
      assert s[0] == line[0] && !IsBreak(s[0]);
      assert s[1..] == line[1..] + CRLF + rest;
      assert !ContainsNewline(line[1..]);
      TakesCleanLine(line[1..], rest);
      assert line == [line[0]] + line[1..];
    }
  }

  lemma {:induction false} ParsesField(f: Field)
    requires Printable(f)
    ensures ParseField(Line(f)) == Some(f)
    decreases |f.name|
  {
    var line := Line(f);
    if f.name == "" {
      assert line[0] == ':' && line[1] == ' ' && line[2..] == f.value;
    } else {
      var g := f.(name := f.name[1..]);
      assert line[0] == f.name[0] && line[1..] == Line(g);
      ParsesField(g);
      assert f.name == [f.name[0]] + f.name[1..];
    }
  }

  lemma LineIsClean(f: Field)
    requires Printable(f)
    ensures !ContainsNewline(Line(f)) && Line(f) != ""
  {
    forall i | 0 <= i < |Line(f)|
      ensures !IsBreak(Line(f)[i])
    {
      if i >= |f.name| + 2 {
        assert Line(f)[i] == f.value[i - |f.name| - 2];
      }
    }
  }

  lemma FirstLineOf(fields: seq<Field>, body: string)
    requires fields != []
    ensures Terminated(FieldLines(fields)) + CRLF + body
         == Line(fields[0]) + CRLF + (Terminated(FieldLines(fields[1..])) + CRLF + body)
  {
    assert FieldLines(fields)[1..] == FieldLines(fields[1..]);
  }

  /** Parsing a printed field and a message after it. */
  lemma ParsesOneMore(f: Field, rest: string, m: Message)
    requires Printable(f) && ParseMessage(rest) == Some(m)
    ensures ParseMessage(Line(f) + CRLF + rest) == Some(Message([f] + m.fields, m.body))
  {
    LineIsClean(f);
    TakesCleanLine(Line(f), rest);
    ParsesField(f);
  }

  /** The parser undoes the printer, whatever the header and the body. */
  lemma {:induction false} ParsesPrinted(fields: seq<Field>, body: string)
    requires forall i | 0 <= i < |fields| :: Printable(fields[i])
    ensures ParseMessage(Terminated(FieldLines(fields)) + CRLF + body) == Some(Message(fields, body))
    decreases |fields|
  {
    if fields == [] {
      assert "" + CRLF + body == CRLF + body;
      TakesCleanLine("", body);
    } else {
      var rest := Terminated(FieldLines(fields[1..])) + CRLF + body;
      FirstLineOf(fields, body);
      ParsesPrinted(fields[1..], body);
      ParsesOneMore(fields[0], rest, Message(fields[1..], body));
      assert fields == [fields[0]] + fields[1..];
    }
  }

  // ---------------------------------------------------------------- the round trip

  lemma {:induction false} JoinIsClean(parts: seq<string>)
    requires forall i | 0 <= i < |parts| :: !ContainsNewline(parts[i])
    ensures !ContainsNewline(JoinWith(parts, ", "))
    decreases |parts|
  {
    if |parts| > 1 {
      JoinIsClean(parts[1..]);
    }
  }

  lemma MailboxesAreClean(lib: Library, values: seq<string>)
    requires lib.Clean() && forall r | r in values :: ParseMailbox(lib, r).Some?
    ensures !ContainsNewline(MailboxList(lib, values))
  {
    JoinIsClean(Formatted(lib, values));
  }

  /** The names of the fields that buildEmail writes itself are valid field names. */
  lemma StandardNamesAreValid(value: string)
    requires !ContainsNewline(value)
    ensures Printable(Field("From", value)) && Printable(Field("To", value)) && Printable(Field("Cc", value))
    ensures Printable(Field("Subject", value)) && Printable(Field("MIME-Version", value))
  {
  }

  lemma ContentNamesAreValid(value: string)
    requires !ContainsNewline(value)
    ensures Printable(Field("Content-Type", value)) && Printable(Field("Content-Transfer-Encoding", value))
  {
  }

  lemma AllPrintable(a: Field, b: Field, c: Field, d: Field, e: Field, f: Field)
    requires Printable(a) && Printable(b) && Printable(c) && Printable(d) && Printable(e) && Printable(f)
    ensures forall x | x in [a, b, c, d, e, f] :: Printable(x)
  {
  }

  lemma StandardFieldsArePrintable(lib: Library, target: Target, subject: string)
    requires lib.Clean() && Validated(lib, target) && !ContainsNewline(subject)
    ensures forall f | f in StandardFields(lib, target, subject) :: Printable(f)
  {
    MailboxesAreClean(lib, target.to);
    StandardNamesAreValid(FormatMailbox(lib, target.from));
    StandardNamesAreValid(MailboxList(lib, target.to));
    StandardNamesAreValid(EncodeSubject(lib, subject));
    StandardNamesAreValid("1.0");
    ContentNamesAreValid(ContentType(target.format) + "; charset=utf-8");
    ContentNamesAreValid("8bit");
    var fields := StandardFields(lib, target, subject);
    AllPrintable(fields[0], fields[1], fields[2], fields[3], fields[4], fields[5]);
  }

  lemma HeaderFieldsArePrintable(lib: Library, target: Target, subject: string)
    requires lib.Clean() && Validated(lib, target) && !ContainsNewline(subject)
    ensures forall f | f in HeaderFields(lib, target, subject) :: Printable(f)
  {
    StandardFieldsArePrintable(lib, target, subject);
    MailboxesAreClean(lib, target.cc);
    StandardNamesAreValid(MailboxList(lib, target.cc));
    var names := Names(target.headers);
    forall i | 0 <= i < |names|
      ensures Printable(CustomFields(target.headers, names)[i])
    {
      ValidFieldNameMeaning(names[i]);
    }
  }

  /**
   Round trip: for every validated target and subject, parsing the message gives back exactly the
   header fields in order, and the lines of the body, each ended by CRLF.
   */
  lemma RoundTrip(lib: Library, target: Target, subject: string, body: string)
    requires lib.Clean() && Validated(lib, target) && !ContainsNewline(subject)
    ensures var fields := HeaderFields(lib, target, subject);
            ParseMessage(Printed(fields, body)) == Some(Message(fields, Terminated(TextLines(body))))
  {
    HeaderFieldsArePrintable(lib, target, subject);
    ParsesPrinted(HeaderFields(lib, target, subject), SentBody(body));
    SentBodyMeaning(body);
  }

  /**
   What is in the header, field by field: canonical mailboxes, the subject as it is when it is ASCII
   and encoded otherwise, the MIME fields, and every custom header.
   */
  lemma HeaderMeaning(lib: Library, target: Target, subject: string)
    requires Validated(lib, target)
    ensures var fields := HeaderFields(lib, target, subject);
      && |fields| == (if target.cc == [] then 6 else 7) + |Names(target.headers)|
      && fields[0].name == "From" && Some(fields[0].value) == lib.canonical(TrimSpace(target.from))
      && fields[1] == Field("To", MailboxList(lib, target.to))
      && fields[2].name == "Subject"
      && fields[2].value == (if forall i | 0 <= i < |subject| :: subject[i] as int <= 0x7f then subject else lib.encode(subject))
      && fields[3] == Field("MIME-Version", "1.0")
      && fields[4].name == "Content-Type"
      && fields[4].value == (if target.format.PlainText? then "text/plain" else "text/html") + "; charset=utf-8"
      && fields[5] == Field("Content-Transfer-Encoding", "8bit")
      && (target.cc != [] ==> fields[6] == Field("Cc", MailboxList(lib, target.cc)))
      && forall k | k in target.headers :: Field(k, target.headers[k]) in fields
  {
    CustomAreFields(target.headers);
    FixedFields(lib, target, subject);
  }

  lemma FixedFields(lib: Library, target: Target, subject: string)
    ensures StandardFields(lib, target, subject) + CcFields(lib, target) <= HeaderFields(lib, target, subject)
    ensures CustomFields(target.headers, Names(target.headers))
         == HeaderFields(lib, target, subject)[|StandardFields(lib, target, subject) + CcFields(lib, target)|..]
  {
  }

  lemma CustomAreFields(headers: map<string, string>)
    ensures forall k | k in headers :: Field(k, headers[k]) in CustomFields(headers, Names(headers))
  {
    var names := Names(headers);
    forall k | k in headers
      ensures Field(k, headers[k]) in CustomFields(headers, names)
    {
      var i :| 0 <= i < |names| && names[i] == k;
      assert CustomFields(headers, names)[i] == Field(k, headers[k]);
    }
  }

  lemma FieldLinesAreClean(fields: seq<Field>)
    requires forall f | f in fields :: Printable(f)
    ensures forall i | 0 <= i < |fields| :: !ContainsNewline(FieldLines(fields)[i])
  {
    forall i | 0 <= i < |fields|
      ensures !ContainsNewline(FieldLines(fields)[i])
    {
      LineIsClean(fields[i]);
    }
  }

  /** A message of printable fields has CR and LF only as CRLF pairs. */
  lemma PrintedHasOnlyCRLF(fields: seq<Field>, body: string)
    requires forall f | f in fields :: Printable(f)
    ensures OnlyCRLF(Printed(fields, body))
  {
    FieldLinesAreClean(fields);
    SentBodyMeaning(body);
    PrintedIsTerminated(fields, body);
    TerminatedHasOnlyCRLF(FieldLines(fields) + ([""] + TextLines(body)));
  }

  /** The whole message has CR and LF only as CRLF pairs. */
  lemma MessageHasOnlyCRLF(lib: Library, target: Target, subject: string, body: string)
    requires lib.Clean() && Validated(lib, target) && !ContainsNewline(subject)
    ensures OnlyCRLF(Printed(HeaderFields(lib, target, subject), body))
  {
    HeaderFieldsArePrintable(lib, target, subject);
    PrintedHasOnlyCRLF(HeaderFields(lib, target, subject), body);
  }

  lemma PrintedIsTerminated(fields: seq<Field>, body: string)
    ensures Printed(fields, body) == Terminated(FieldLines(fields) + ([""] + TextLines(body)))
  {
    SentBodyMeaning(body);
    TerminatedConcat(FieldLines(fields), [""] + TextLines(body));
    assert ([""] + TextLines(body))[1..] == TextLines(body);
    assert Terminated([""] + TextLines(body)) == CRLF + SentBody(body);
  }

  lemma {:induction false} TerminatedConcat(a: seq<string>, b: seq<string>)
    ensures Terminated(a + b) == Terminated(a) + Terminated(b)
    decreases |a|
  {
    if a == [] {
      assert a + b == b;
    } else {
      assert (a + b)[1..] == a[1..] + b;
      TerminatedConcat(a[1..], b);
    }
  }

  function LowerNames(fields: seq<Field>): (r: seq<string>)
    ensures |r| == |fields|
  {
    seq(|fields|, i requires 0 <= i < |fields| => ToLower(fields[i].name))
  }

  /** How often a field name occurs, in any letter case; name is given in lower case. */
  function Occurrences(fields: seq<Field>, name: string): nat {
    multiset(LowerNames(fields))[name]
  }

  lemma OccurrencesConcat(a: seq<Field>, b: seq<Field>, name: string)
    ensures Occurrences(a + b, name) == Occurrences(a, name) + Occurrences(b, name)
  {
    assert LowerNames(a + b) == LowerNames(a) + LowerNames(b);
  }

  lemma CustomIsNotReserved(headers: map<string, string>, names: seq<string>, name: string)
    requires ValidHeaders(headers) && name in RESERVED
    requires forall i | 0 <= i < |names| :: names[i] in headers
    ensures Occurrences(CustomFields(headers, names), name) == 0
  {
    var lower := LowerNames(CustomFields(headers, names));
    assert name in multiset(lower) <==> name in lower;
  }

  lemma LowerShortNames()
    ensures ToLower("From") == "from" && ToLower("To") == "to" && ToLower("Cc") == "cc"
    ensures ToLower("Subject") == "subject" && ToLower("MIME-Version") == "mime-version"
  {
  }

  lemma LowerContentNames()
    ensures ToLower("Content-Type") == "content-type"
    ensures ToLower("Content-Transfer-Encoding") == "content-transfer-encoding"
  {
  }

  const STANDARD_NAMES: seq<string> :=
    ["from", "to", "subject", "mime-version", "content-type", "content-transfer-encoding"]

  lemma StandardLowerNames(lib: Library, target: Target, subject: string)
    ensures LowerNames(StandardFields(lib, target, subject)) == STANDARD_NAMES
  {
    LowerShortNames();
    LowerContentNames();
  }

  lemma StandardNamesOnce(name: string)
    requires name in RESERVED
    ensures multiset(STANDARD_NAMES)[name] == if name == "bcc" || name == "cc" then 0 else 1
  {
    assert "to"[0] != "cc"[0] && "mime-version"[0] != "content-type"[0];
  }

  lemma ReservedOccurrences(lib: Library, target: Target, subject: string, name: string)
    requires Validated(lib, target) && name in RESERVED
    ensures Occurrences(HeaderFields(lib, target, subject), name) ==
            if name == "bcc" || (name == "cc" && target.cc == []) then 0 else 1
  {
    HeaderOccurrences(lib, target, subject, name);
    StandardOccurrences(lib, target, subject, name);
    CcOccurs(lib, target, name);
    CustomIsNotReserved(target.headers, Names(target.headers), name);
  }

  /** How many fields have the name lower in some letter case. */
  function Count(fields: seq<Field>, lower: string): nat {
    if fields == [] then 0
    else (if SameLetters(fields[0].name, lower) then 1 else 0) + Count(fields[1..], lower)
  }

  lemma {:induction false} CountIsOccurrences(fields: seq<Field>, lower: string)
    requires LowerLetters(lower)
    ensures Count(fields, lower) == Occurrences(fields, lower)
    decreases |fields|
  {
    if fields != [] {
      CountIsOccurrences(fields[1..], lower);
      FoldMeaning(fields[0].name, lower);
      assert LowerNames(fields) == [ToLower(fields[0].name)] + LowerNames(fields[1..]);
    }
  }

  lemma ReservedCount(lib: Library, target: Target, subject: string, name: string)
    requires Validated(lib, target) && name in RESERVED && LowerLetters(name)
    ensures Count(HeaderFields(lib, target, subject), name) == if name == "bcc" || (name == "cc" && target.cc == []) then 0 else 1
  {
    ReservedOccurrences(lib, target, subject, name);
    CountIsOccurrences(HeaderFields(lib, target, subject), name);
  }

  /**
   In a message for a validated target every standard field occurs once whatever the letter case, Cc
   occurs exactly when there are copies to announce, and Bcc never occurs although every blind copy
   is delivered.
   */
  lemma FieldsOccurOnce(lib: Library, target: Target, subject: string)
    requires Validated(lib, target)
    ensures var fields := HeaderFields(lib, target, subject);
      && Count(fields, "from") == Count(fields, "to") == Count(fields, "subject") == 1
      && Count(fields, "mime-version") == Count(fields, "content-type") == Count(fields, "content-transfer-encoding") == 1
      && Count(fields, "cc") == (if target.cc == [] then 0 else 1)
      && Count(fields, "bcc") == 0
    ensures forall r | r in target.bcc :: r in EnvelopeRecipients(target)
  {
    ShortNamesAreLower();
    LongNamesAreLower();
    ReservedCount(lib, target, subject, "from");
    ReservedCount(lib, target, subject, "to");
    ReservedCount(lib, target, subject, "subject");
    ReservedCount(lib, target, subject, "mime-version");
    ReservedCount(lib, target, subject, "content-type");
    ReservedCount(lib, target, subject, "content-transfer-encoding");
    ReservedCount(lib, target, subject, "cc");
    ReservedCount(lib, target, subject, "bcc");
  }

  lemma HeaderOccurrences(lib: Library, target: Target, subject: string, name: string)
    ensures Occurrences(HeaderFields(lib, target, subject), name)
         == Occurrences(StandardFields(lib, target, subject), name) + Occurrences(CcFields(lib, target), name)
            + Occurrences(CustomFields(target.headers, Names(target.headers)), name)
  {
    var standard, copies := StandardFields(lib, target, subject), CcFields(lib, target);
    OccurrencesConcat(standard + copies, CustomFields(target.headers, Names(target.headers)), name);
    OccurrencesConcat(standard, copies, name);
  }

  lemma StandardOccurrences(lib: Library, target: Target, subject: string, name: string)
    requires name in RESERVED
    ensures Occurrences(StandardFields(lib, target, subject), name) == if name == "bcc" || name == "cc" then 0 else 1
  {
    StandardLowerNames(lib, target, subject);
    StandardNamesOnce(name);
  }

  lemma CcOccurs(lib: Library, target: Target, name: string)
    ensures Occurrences(CcFields(lib, target), name) == if name == "cc" && target.cc != [] then 1 else 0
  {
    LowerShortNames();
    assert target.cc != [] ==> LowerNames(CcFields(lib, target)) == ["cc"];
  }
}
