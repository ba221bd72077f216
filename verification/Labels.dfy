/** The anchord.expose label: its parser, its grammar, and that each is the other's inverse. */
module Labels {
  import opened GoBase
  import opened GoStrings

  const LABEL_EXPOSE := "anchord.expose"
  const LABEL_EXPOSE_V6 := "anchord.expose.v6"

  datatype Rule = Rule(proto: string, port: uint16, backendPort: uint16)
  datatype V6Mode = V6Auto | V6Off
  datatype Spec = Spec(rules: seq<Rule>, v6: V6Mode)

  datatype PortError = EmptyPort | NotUint16 | PortZero
  datatype ParseError =
    | MissingSlash
    | UnsupportedProto
    | InvalidDmzPort(dmz: PortError)
    | InvalidBackendPort(backend: PortError)
    | SetButEmpty
    | InvalidV6

  // ---- numbers ----------------------------------------------------------

  predicate Digits(s: string) {
    s != "" && forall i | 0 <= i < |s| :: '0' <= s[i] <= '9'
  }

  function Value(s: string): nat
    requires forall i | 0 <= i < |s| :: '0' <= s[i] <= '9'
  {
    if s == "" then 0 else 10 * Value(s[..|s| - 1]) + (s[|s| - 1] as int - '0' as int)
  }

  /** The usual decimal spelling, without leading zeros. */
  function Decimal(n: nat): (s: string)
    ensures Digits(s) && Value(s) == n
  {
    var last := [('0' as int + n % 10) as char];
    if n < 10 then last
    else
      var s := Decimal(n / 10) + last;
      assert s[..|s| - 1] == Decimal(n / 10);
      s
  }

  // ---- the parser -------------------------------------------------------

  function ParsePort(s: string): Result<uint16, PortError> {
    var trimmed := TrimSpace(s);
    if trimmed == "" then Err(EmptyPort)
    else if !Digits(trimmed) || Value(trimmed) > 65535 then Err(NotUint16)
    else if Value(trimmed) == 0 then Err(PortZero)
    else Ok(Value(trimmed))
  }

  /** The port part of an entry: dmz_port[:backend_port]. */
  function ParsePorts(rest: string): Result<(uint16, uint16), ParseError> {
    var (dmzText, backendText) :=
      match Cut(rest, ':') case None => (rest, None) case Some((d, b)) => (d, Some(b));
    match ParsePort(dmzText)
    case Err(e) => Err(InvalidDmzPort(e))
    case Ok(port) =>
      match backendText
      case None => Ok((port, port))
      case Some(b) =>
        match ParsePort(b)
        case Err(e) => Err(InvalidBackendPort(e))
        case Ok(backend) => Ok((port, backend))
  }

  function ParseRule(s: string): Result<Rule, ParseError> {
    match Cut(s, '/')
    case None => Err(MissingSlash)
    case Some((protoText, rest)) =>
      var proto := ToLower(TrimSpace(protoText));
      if proto != "tcp" && proto != "udp" then Err(UnsupportedProto)
      else
        match ParsePorts(rest)
        case Err(e) => Err(e)
        case Ok((port, backend)) => Ok(Rule(proto, port, backend))
  }

  /** One turn of Parse's loop: blanks are skipped, an error is final. */
  function AddPart(acc: Result<seq<Rule>, ParseError>, part: string): Result<seq<Rule>, ParseError> {
    if acc.Err? then acc
    else if TrimSpace(part) == "" then acc
    else
      match ParseRule(TrimSpace(part))
      case Err(e) => Err(e)
      case Ok(r) => Ok(acc.value + [r])
  }

  function ParseParts(parts: seq<string>): Result<seq<Rule>, ParseError> {
    if parts == [] then Ok([])
    else AddPart(ParseParts(parts[..|parts| - 1]), parts[|parts| - 1])
  }

  function ParseV6(text: string): Result<V6Mode, ParseError> {
    var t := ToLower(TrimSpace(text));
    if t == "" || t == "auto" then Ok(V6Auto)
    else if t == "off" || t == "false" || t == "no" || t == "0" then Ok(V6Off)
    else Err(InvalidV6)
  }

  /** A Go map read: the zero value for a missing key. */
  function Lookup(lbl: map<string, string>, key: string): string {
    if key in lbl then lbl[key] else ""
  }

  /** What Parse computes; None when the container asks for nothing. */
  function ParseLabels(lbl: map<string, string>): Result<Option<Spec>, ParseError> {
    var raw := Lookup(lbl, LABEL_EXPOSE);
    if TrimSpace(raw) == "" then Ok(None)
    else
      match ParseParts(Split(raw, ','))
      case Err(e) => Err(e)
      case Ok(rules) =>
        if rules == [] then Err(SetButEmpty)
        else
          match ParseV6(Lookup(lbl, LABEL_EXPOSE_V6))
          case Err(e) => Err(e)
          case Ok(v6) => Ok(Some(Spec(rules, v6)))
  }

  method Parse(lbl: map<string, string>) returns (r: Result<Option<Spec>, ParseError>)
    ensures r == ParseLabels(lbl)
  {
    if LABEL_EXPOSE !in lbl || TrimSpace(lbl[LABEL_EXPOSE]) == "" {
      assert TrimSpace("") == "";
      return Ok(None);
    }
    var parts := Split(lbl[LABEL_EXPOSE], ',');
    var rules: seq<Rule> := [];
    for i := 0 to |parts|
      invariant ParseParts(parts[..i]) == Ok(rules)
    {
      assert parts[..i + 1][..i] == parts[..i];
      var part := TrimSpace(parts[i]);
      if part == "" {
        continue;
      }
      match ParseRule(part)
      case Err(e) =>
        ErrorIsFinal(parts, i + 1);
        return Err(e);
      case Ok(rule) =>
        rules := rules + [rule];
    }
    assert parts[..|parts|] == parts;
    if |rules| == 0 {
      return Err(SetButEmpty);
    }
    match ParseV6(Lookup(lbl, LABEL_EXPOSE_V6))
    case Err(e) => return Err(e);
    case Ok(v6) => return Ok(Some(Spec(rules, v6)));
  }

  lemma {:induction false} ErrorIsFinal(parts: seq<string>, n: nat)
    requires n <= |parts| && ParseParts(parts[..n]).Err?
    ensures ParseParts(parts) == ParseParts(parts[..n])
  {
    if n == |parts| {
      assert parts[..n] == parts;
    } else {
      var init := parts[..|parts| - 1];
      assert init[..n] == parts[..n];
      ErrorIsFinal(init, n);
    }
  }

  // ---- the grammar ------------------------------------------------------

  /** A word with whitespace around it. */
  datatype Field = Field(before: string, text: string, after: string) {
    function Render(): string { before + text + after }
    predicate Padded() { AllSpace(before) && AllSpace(after) }
  }

  /** One spelling of proto/port[:backend_port]. */
  datatype Layout = Layout(proto: Field, port: Field, backend: Option<Field>) {
    function Render(): string {
      proto.Render() + "/" + RenderPorts()
    }
    function RenderPorts(): string {
      if backend.Some? then port.Render() + ":" + backend.value.Render() else port.Render()
    }
  }

  predicate PortSpelling(f: Field, port: uint16) {
    f.Padded() && Digits(f.text) && Value(f.text) == port && port > 0
  }

  /** `l` spells `r`: any letter case, leading zeros, suffix omitted only when the ports agree. */
  predicate Spells(l: Layout, r: Rule) {
    && l.proto.Padded() && ToLower(l.proto.text) == r.proto
    && (r.proto == "tcp" || r.proto == "udp")
    && PortSpelling(l.port, r.port)
    && if l.backend.Some? then PortSpelling(l.backend.value, r.backendPort) else r.backendPort == r.port
  }

  /** A comma-separated entry of the label: blank, or a spelled rule. */
  datatype Entry = Blank(pad: string) | Item(layout: Layout, rule: Rule) {
    function Render(): string { if Blank? then pad else layout.Render() }
    function Rules(): seq<Rule> { if Blank? then [] else [rule] }
    predicate Valid() { if Blank? then AllSpace(pad) else Spells(layout, rule) }
  }

  predicate AllValid(entries: seq<Entry>) {
    forall i | 0 <= i < |entries| :: entries[i].Valid()
  }

  function RenderAll(entries: seq<Entry>): (r: seq<string>)
    ensures |r| == |entries|
  {
    if entries == [] then []
    else RenderAll(entries[..|entries| - 1]) + [entries[|entries| - 1].Render()]
  }

  function RulesOf(entries: seq<Entry>): seq<Rule> {
    if entries == [] then []
    else RulesOf(entries[..|entries| - 1]) + entries[|entries| - 1].Rules()
  }

  ghost predicate Exposes(raw: string, entries: seq<Entry>) {
    && entries != []
    && AllValid(entries)
    && raw == Join(RenderAll(entries), ',')
  }

  /** The canonical spelling of a rule. */
  function Canonical(r: Rule): Layout {
    Layout(Field("", r.proto, ""), Field("", Decimal(r.port), ""),
           if r.backendPort == r.port then None else Some(Field("", Decimal(r.backendPort), "")))
  }

  predicate ValidRule(r: Rule) {
    (r.proto == "tcp" || r.proto == "udp") && r.port > 0 && r.backendPort > 0
  }

  lemma CanonicalSpells(r: Rule)
    requires ValidRule(r)
    ensures Spells(Canonical(r), r)
  {
    assert ToLower(r.proto) == r.proto;
  }

  // ---- printing then parsing ---------------------------------------------

  /** None of the separators can hide in a padded word made of digits or protocol letters. */
  lemma FieldChars(f: Field, c: char)
    requires f.Padded()
    requires Digits(f.text) || ToLower(f.text) == "tcp" || ToLower(f.text) == "udp"
    requires c == ',' || c == '/' || c == ':'
    ensures c !in f.Render()
    ensures f.text != "" && Trimmed(f.text)
  {
    assert !IsSpace(c);
    assert c !in f.before && c !in f.after;
    if !Digits(f.text) {
      assert forall i | 0 <= i < |f.text| :: LowerChar(f.text[i]) in ToLower(f.text);
    }
    forall i | 0 <= i < |f.text|
      ensures f.text[i] != c && !IsSpace(f.text[i])
    {
      assert Digits(f.text) || LowerChar(f.text[i]) in "tcpudp";
    }
  }

  lemma PortSpellingParses(f: Field, port: uint16)
    requires PortSpelling(f, port)
    ensures ParsePort(f.Render()) == Ok(port)
  {
    FieldChars(f, ',');
    TrimSpaceDropsPads(f.before, f.text, f.after);
  }

  /** Cutting the outer whitespace of a spelling leaves a spelling with none. */
  function Strip(l: Layout): Layout {
    var proto := l.proto.(before := "");
    if l.backend.Some? then l.(proto := proto, backend := Some(l.backend.value.(after := "")))
    else l.(proto := proto, port := l.port.(after := ""))
  }

  /** Trimming reaches through whitespace to the first and the last word. */
  lemma TrimToWords(before: string, first: string, middle: string, last: string, after: string)
    requires AllSpace(before) && AllSpace(after)
    requires first != "" && last != "" && Trimmed(first) && Trimmed(last)
    ensures TrimSpace(before + (first + middle + last) + after) == first + middle + last
  {
    var inner := first + middle + last;
    assert inner[0] == first[0] && inner[|inner| - 1] == last[|last| - 1];
    TrimSpaceDropsPads(before, inner, after);
  }

  lemma Regroup(a: string, b: string, c: string, d: string, e: string, f: string)
    ensures (a + b + c) + (d + e + f) == a + (b + (c + d) + e) + f
  {
  }

  /** Everything of a spelling between its first word and its last. */
  function Middle(l: Layout): string {
    l.proto.after +
      if l.backend.Some? then "/" + l.port.Render() + ":" + l.backend.value.before else "/" + l.port.before
  }

  function Last(l: Layout): Field {
    if l.backend.Some? then l.backend.value else l.port
  }

  lemma RenderShape(l: Layout)
    ensures l.Render() == l.proto.before + (l.proto.text + Middle(l) + Last(l).text) + Last(l).after
  {
    var p, q := l.proto, l.port;
    if l.backend.Some? {
      var b := l.backend.value;
      var start := "/" + q.Render() + ":" + b.before;
      Regroup(p.before, p.text, p.after, start, b.text, b.after);
      assert p.Render() + "/" + (q.Render() + ":" + b.Render()) == p.Render() + (start + b.text + b.after);
    } else {
      var start := "/" + q.before;
      Regroup(p.before, p.text, p.after, start, q.text, q.after);
      assert p.Render() + "/" + q.Render() == p.Render() + (start + q.text + q.after);
    }
  }

  /** The outer words of a spelling are non-empty, and have no whitespace of their own. */
  lemma OuterWords(l: Layout, r: Rule)
    requires Spells(l, r)
    ensures l.proto.text != "" && Trimmed(l.proto.text) && Last(l).text != "" && Trimmed(Last(l).text)
    ensures AllSpace(l.proto.before) && AllSpace(Last(l).after)
  {
    FieldChars(l.proto, ',');
    FieldChars(Last(l), ',');
    hide Digits, Trimmed, AllSpace, Value, ToLower;
  }

  lemma StripShape(l: Layout)
    ensures Strip(l).Render() == l.proto.text + Middle(l) + Last(l).text
  {
    hide Field.Render;
    RenderShape(Strip(l));
    var inner := l.proto.text + Middle(l) + Last(l).text;
    StripKeeps(l);
    assert "" + inner + "" == inner;
  }

  lemma StripKeeps(l: Layout)
    ensures Middle(Strip(l)) == Middle(l) && Last(Strip(l)).text == Last(l).text && Strip(l).proto.text == l.proto.text
    ensures Strip(l).proto.before == "" && Last(Strip(l)).after == ""
  {
  }

  lemma StripSpells(l: Layout, r: Rule)
    requires Spells(l, r)
    ensures Spells(Strip(l), r)
  {
    hide Digits, Value, ToLower;
  }

  lemma RenderStrips(l: Layout, r: Rule)
    requires Spells(l, r)
    ensures TrimSpace(l.Render()) == Strip(l).Render() != ""
    ensures Spells(Strip(l), r)
  {
    hide *;
    OuterWords(l, r);
    RenderShape(l);
    StripShape(l);
    StripSpells(l, r);
    TrimToWords(l.proto.before, l.proto.text, Middle(l), Last(l).text, Last(l).after);
  }

  lemma RenderCommaFree(l: Layout, r: Rule)
    requires Spells(l, r)
    ensures ',' !in l.Render()
  {
    FieldChars(l.proto, ',');
    FieldChars(l.port, ',');
    if l.backend.Some? { FieldChars(l.backend.value, ','); }
  }

  lemma PortsParse(l: Layout, r: Rule)
    requires Spells(l, r)
    ensures ParsePorts(l.RenderPorts()) == Ok((r.port, r.backendPort))
  {
    FieldChars(l.port, ':');
    PortSpellingParses(l.port, r.port);
    if l.backend.Some? {
      PortSpellingParses(l.backend.value, r.backendPort);
      CutAt(l.port.Render(), ':', l.backend.value.Render());
    }
  }

  lemma SpellingParses(l: Layout, r: Rule)
    requires Spells(l, r)
    ensures ParseRule(l.Render()) == Ok(r)
  {
    FieldChars(l.proto, '/');
    TrimSpaceDropsPads(l.proto.before, l.proto.text, l.proto.after);
    CutAt(l.proto.Render(), '/', l.RenderPorts());
    PortsParse(l, r);
  }

  lemma {:induction false} EntriesCommaFree(entries: seq<Entry>)
    requires AllValid(entries)
    ensures forall i | 0 <= i < |entries| :: ',' !in RenderAll(entries)[i]
  {
    if entries != [] {
      EntriesCommaFree(entries[..|entries| - 1]);
      EntryParses(entries[|entries| - 1]);
    }
  }

  lemma EntryParses(e: Entry)
    requires e.Valid()
    ensures ',' !in e.Render()
    ensures forall rules :: AddPart(Ok(rules), e.Render()) == Ok(rules + e.Rules())
  {
    if e.Blank? {
      TrimSpaceDropsPads(e.pad, "", "");
      assert e.pad + "" + "" == e.pad;
      assert forall rules: seq<Rule> :: rules + [] == rules;
    } else {
      RenderCommaFree(e.layout, e.rule);
      RenderStrips(e.layout, e.rule);
      RenderStrips(Strip(e.layout), e.rule);
      SpellingParses(Strip(e.layout), e.rule);
    }
  }

  lemma {:induction false} EntriesParse(entries: seq<Entry>)
    requires AllValid(entries)
    ensures ParseParts(RenderAll(entries)) == Ok(RulesOf(entries))
  {
    if entries != [] {
      var init := entries[..|entries| - 1];
      EntriesParse(init);
      EntryParses(entries[|entries| - 1]);
      var parts := RenderAll(entries);
      assert parts[..|parts| - 1] == RenderAll(init);
      assert AddPart(Ok(RulesOf(init)), parts[|parts| - 1]) == Ok(RulesOf(entries));
    }
  }

  /** Every spelling of a non-empty rule list parses to exactly that list. */
  lemma RenderedLabelsParse(entries: seq<Entry>, lbl: map<string, string>, v6: V6Mode)
    requires LABEL_EXPOSE in lbl && Exposes(lbl[LABEL_EXPOSE], entries) && RulesOf(entries) != []
    requires ParseV6(Lookup(lbl, LABEL_EXPOSE_V6)) == Ok(v6)
    ensures ParseLabels(lbl) == Ok(Some(Spec(RulesOf(entries), v6)))
  {
    var raw := lbl[LABEL_EXPOSE];
    EntriesCommaFree(entries);
    SplitJoin(RenderAll(entries), ',');
    EntriesParse(entries);
    if TrimSpace(raw) == "" {
      var before, after := TrimSpaceShape(raw);
      BlankParts(Split(raw, ','), raw);
    }
  }

  /** A label of nothing but whitespace yields no rules. */
  lemma {:induction false} BlankParts(parts: seq<string>, raw: string)
    requires AllSpace(raw) && parts == Split(raw, ',')
    ensures ParseParts(parts) == Ok([])
  {
    assert ',' !in raw;
    TrimSpaceDropsPads(raw, "", "");
    assert raw + "" + "" == raw && parts == [raw];
    assert parts[..0] == [];
  }

  // ---- parsing then printing ---------------------------------------------

  lemma ParsedPortIsSpelled(s: string) returns (f: Field)
    requires ParsePort(s).Ok?
    ensures f.Render() == s && PortSpelling(f, ParsePort(s).value)
  {
    var before, after := TrimSpaceShape(s);
    f := Field(before, TrimSpace(s), after);
  }

  lemma ParsedRuleIsSpelled(s: string) returns (l: Layout)
    requires ParseRule(s).Ok?
    ensures l.Render() == s && Spells(l, ParseRule(s).value)
  {
    CutShape(s, '/');
    var (protoText, rest) := Cut(s, '/').value;
    var before, after := TrimSpaceShape(protoText);
    var proto := Field(before, TrimSpace(protoText), after);
    CutShape(rest, ':');
    if Cut(rest, ':').Some? {
      var (d, b) := Cut(rest, ':').value;
      var port := ParsedPortIsSpelled(d);
      var backend := ParsedPortIsSpelled(b);
      l := Layout(proto, port, Some(backend));
    } else {
      var port := ParsedPortIsSpelled(rest);
      l := Layout(proto, port, None);
    }
  }

  function Power10(n: nat): nat {
    if n == 0 then 1 else 10 * Power10(n - 1)
  }

  /** A decimal numeral and its value, the leading digit counting for the most. */
  predicate IsNumeral(s: string) {
    s != "" && forall i | 0 <= i < |s| :: s[i] in "0123456789"
  }

  function NumberOf(s: string): int
    requires forall i | 0 <= i < |s| :: '0' <= s[i] <= '9'
  {
    if s == "" then 0 else (s[0] as int - '0' as int) * Power10(|s| - 1) + NumberOf(s[1..])
  }

  lemma {:induction false} NumberOfSnoc(s: string, d: char)
    requires '0' <= d <= '9' && forall i | 0 <= i < |s| :: '0' <= s[i] <= '9'
    ensures NumberOf(s + [d]) == 10 * NumberOf(s) + (d as int - '0' as int)
  {
    if s == "" {
      assert s + [d] == [d] && [d][1..] == "";
    } else {
      NumberOfSnoc(s[1..], d);
      assert (s + [d])[1..] == s[1..] + [d];
      Shifted(s[0] as int - '0' as int, |s| - 1);
    }
  }

  lemma Shifted(x: nat, n: nat)
    ensures x * Power10(n + 1) == 10 * (x * Power10(n))
  {
    var p := Power10(n);
    assert Power10(n + 1) == 10 * p;
    assert x * (10 * p) == 10 * (x * p);
  }

  lemma {:induction false} ValueIsNumber(s: string)
    requires forall i | 0 <= i < |s| :: '0' <= s[i] <= '9'
    ensures Value(s) == NumberOf(s)
  {
    if s != "" {
      var init := s[..|s| - 1];
      ValueIsNumber(init);
      NumberOfSnoc(init, s[|s| - 1]);
      assert s == init + [s[|s| - 1]];
    }
  }

  lemma NumeralExactly(s: string)
    ensures IsNumeral(s) <==> Digits(s)
    ensures IsNumeral(s) ==> Value(s) == NumberOf(s)
  {
    forall i | 0 <= i < |s| {
      DigitChar(s[i]);
    }
    if Digits(s) {
      ValueIsNumber(s);
    }
    hide Value, NumberOf;
  }

  lemma DigitChar(c: char)
    ensures c in "0123456789" <==> '0' <= c <= '9'
  {
    assert '0' <= c <= '9' ==> "0123456789"[c as int - '0' as int] == c;
  }

  /** A port: a decimal number from 1 to 65535, with white space around it. */
  ghost predicate SpellsPort(text: string, port: uint16) {
    port > 0 && exists before, digits, after ::
                  && AllSpace(before) && AllSpace(after) && text == before + digits + after
                  && IsNumeral(digits) && NumberOf(digits) == port
  }

  lemma FieldPort(f: Field, port: uint16)
    ensures PortSpelling(f, port) ==> SpellsPort(f.Render(), port)
  {
    NumeralExactly(f.text);
    assert f.Render() == f.before + f.text + f.after;
  }

  lemma PortField(text: string, port: uint16) returns (f: Field)
    requires SpellsPort(text, port)
    ensures f.Render() == text && PortSpelling(f, port)
  {
    var before, digits, after :| AllSpace(before) && AllSpace(after) && text == before + digits + after &&
                                 IsNumeral(digits) && NumberOf(digits) == port;
    NumeralExactly(digits);
    f := Field(before, digits, after);
  }

  lemma PortExactly(text: string, port: uint16)
    ensures ParsePort(text) == Ok(port) <==> SpellsPort(text, port)
    ensures ParsePort(text) == Err(EmptyPort) <==> AllSpace(text)
  {
    if ParsePort(text) == Ok(port) {
      var f := ParsedPortIsSpelled(text);
      FieldPort(f, port);
    }
    if SpellsPort(text, port) {
      var f := PortField(text, port);
      PortSpellingParses(f, port);
    }
    BlankExactly(text);
    hide TrimSpace, AllSpace;
  }

  lemma BlankExactly(s: string)
    ensures TrimSpace(s) == "" <==> AllSpace(s)
  {
    if AllSpace(s) {
      TrimSpaceDropsPads(s, "", "");
      assert s + "" + "" == s;
    } else if TrimSpace(s) == "" {
      var before, after := TrimSpaceShape(s);
    }
  }

  ghost predicate SpellsWord(text: string, word: string) {
    exists before, letters, after ::
      AllSpace(before) && AllSpace(after) && text == before + letters + after && IsWord(letters, word)
  }

  /** A rule: tcp or udp in any letter case, a slash, a port, and perhaps a colon and the backend's port. */
  ghost predicate SpellsRule(text: string, r: Rule) {
    exists proto, port, backend ::
      && r.proto in ["tcp", "udp"] && SpellsWord(proto, r.proto) && SpellsPort(port, r.port)
      && ((text == proto + "/" + port && r.backendPort == r.port) ||
          (text == proto + "/" + port + ":" + backend && SpellsPort(backend, r.backendPort)))
  }

  lemma WordField(text: string, word: string) returns (f: Field)
    requires word in ["tcp", "udp"] && SpellsWord(text, word)
    ensures f.Render() == text && f.Padded() && ToLower(f.text) == word
  {
    var before, letters, after :| AllSpace(before) && AllSpace(after) && text == before + letters + after &&
                                  IsWord(letters, word);
    LowerExactly(letters, word);
    f := Field(before, letters, after);
  }

  lemma FieldWord(f: Field, word: string)
    requires word in ["tcp", "udp"]
    ensures f.Padded() && ToLower(f.text) == word ==> SpellsWord(f.Render(), word)
  {
    LowerExactly(f.text, word);
    assert f.Render() == f.before + f.text + f.after;
    hide ToLower, IsWord;
  }

  /** parseRule accepts exactly these. */
  lemma RuleExactly(text: string, r: Rule)
    ensures ParseRule(text) == Ok(r) <==> SpellsRule(text, r)
    ensures ParseRule(text) == Err(MissingSlash) <==> '/' !in text
  {
    if ParseRule(text) == Ok(r) {
      var l := ParsedRuleIsSpelled(text);
      LayoutIsRule(l, r);
    }
    if SpellsRule(text, r) {
      var l := RuleLayout(text, r);
      SpellingParses(l, r);
    }
    hide SpellsRule, Spells, ParsePorts, ToLower, TrimSpace;
  }

  lemma LayoutIsRule(l: Layout, r: Rule)
    requires Spells(l, r)
    ensures SpellsRule(l.Render(), r)
  {
    SpellsParts(l, r);
    hide *;
    FieldWord(l.proto, r.proto);
    FieldPort(l.port, r.port);
    var proto, port := l.proto.Render(), l.port.Render();
    if l.backend.Some? {
      FieldPort(l.backend.value, r.backendPort);
      RuleText(l.Render(), r, proto, port, l.backend.value.Render());
    } else {
      RuleText(l.Render(), r, proto, port, "");
    }
  }

  lemma SpellsParts(l: Layout, r: Rule)
    requires Spells(l, r)
    ensures r.proto in ["tcp", "udp"] && l.proto.Padded() && ToLower(l.proto.text) == r.proto
    ensures PortSpelling(l.port, r.port)
    ensures if l.backend.Some?
            then PortSpelling(l.backend.value, r.backendPort) &&
                 l.Render() == l.proto.Render() + "/" + l.port.Render() + ":" + l.backend.value.Render()
            else r.backendPort == r.port && l.Render() == l.proto.Render() + "/" + l.port.Render()
  {
    hide PortSpelling, ToLower, Field.Render, Field.Padded;
    if l.backend.Some? {
      var a, b, c := l.proto.Render(), l.port.Render(), l.backend.value.Render();
      assert a + "/" + (b + ":" + c) == a + "/" + b + ":" + c;
    }
  }

  lemma RuleText(text: string, r: Rule, proto: string, port: string, backend: string)
    requires r.proto in ["tcp", "udp"] && SpellsWord(proto, r.proto) && SpellsPort(port, r.port)
    requires || (text == proto + "/" + port && r.backendPort == r.port)
             || (text == proto + "/" + port + ":" + backend && SpellsPort(backend, r.backendPort))
    ensures SpellsRule(text, r)
  {
    hide SpellsWord, SpellsPort;
  }

  lemma RuleLayout(text: string, r: Rule) returns (l: Layout)
    requires SpellsRule(text, r)
    ensures l.Render() == text && Spells(l, r)
  {
    hide SpellsPort, SpellsWord, PortSpelling, Field.Render, Field.Padded, ToLower;
    var proto, port, backend :|
      && r.proto in ["tcp", "udp"] && SpellsWord(proto, r.proto) && SpellsPort(port, r.port)
      && ((text == proto + "/" + port && r.backendPort == r.port) ||
          (text == proto + "/" + port + ":" + backend && SpellsPort(backend, r.backendPort)));
    var p := WordField(proto, r.proto);
    var q := PortField(port, r.port);
    if text == proto + "/" + port && r.backendPort == r.port {
      l := Layout(p, q, None);
    } else {
      var b := PortField(backend, r.backendPort);
      l := Layout(p, q, Some(b));
      assert l.Render() == proto + "/" + port + ":" + backend;
    }
  }

  predicate V6Word(word: string, v6: V6Mode) {
    if v6.V6Auto? then word == "" || IsWord(word, "auto")
    else IsWord(word, "off") || IsWord(word, "false") || IsWord(word, "no") || word == "0"
  }

  /** The v6 label: blank or auto, or one of the words for off, in any letter case. */
  ghost predicate V6Spelled(text: string, v6: V6Mode) {
    exists before, word, after ::
      AllSpace(before) && AllSpace(after) && text == before + word + after && V6Word(word, v6)
  }

  lemma V6WordExactly(word: string, v6: V6Mode)
    ensures V6Word(word, v6) <==>
            var t := ToLower(word); if v6.V6Auto? then t == "" || t == "auto" else t in ["off", "false", "no", "0"]
  {
    hide ToLower;
    LowerExactly(word, "");
    LowerExactly(word, "auto");
    LowerExactly(word, "off");
    LowerExactly(word, "false");
    LowerExactly(word, "no");
    LowerExactly(word, "0");
  }

  lemma V6WordTrimmed(word: string, v6: V6Mode)
    requires V6Word(word, v6)
    ensures Trimmed(word)
  {
    if word != "" && word != "0" {
      WordTrimmed(word, if IsWord(word, "auto") then "auto" else if IsWord(word, "off") then "off"
                        else if IsWord(word, "false") then "false" else "no");
    }
  }

  lemma WordTrimmed(s: string, word: string)
    requires IsWord(s, word) && forall i | 0 <= i < |word| :: 'a' <= word[i] <= 'z'
    ensures Trimmed(s)
  {
    if s != "" {
      var n := |s| - 1;
      assert 'a' <= word[0] <= 'z' && 'a' <= word[n] <= 'z';
      assert IsLetter(s[0 + 0], word[0]) && IsLetter(s[0 + n], word[n]);
    }
  }

  lemma ParseV6Exactly(text: string, v6: V6Mode)
    ensures ParseV6(text) == Ok(v6) <==> V6Spelled(text, v6)
  {
    hide *;
    ParsesWord(text, v6);
    if ParseV6(text) == Ok(v6) {
      var before, after := TrimSpaceShape(text);
    }
    if V6Spelled(text, v6) {
      var before, word, after :| AllSpace(before) && AllSpace(after) && text == before + word + after &&
                                 V6Word(word, v6);
      V6WordTrimmed(word, v6);
      TrimSpaceDropsPads(before, word, after);
    }
  }

  lemma ParsesWord(text: string, v6: V6Mode)
    ensures ParseV6(text) == Ok(v6) <==> V6Word(TrimSpace(text), v6)
    ensures V6Spelled(text, v6) <==>
            exists before, word, after ::
              AllSpace(before) && AllSpace(after) && text == before + word + after && V6Word(word, v6)
  {
    hide TrimSpace, ToLower, V6Word, AllSpace;
    V6WordExactly(TrimSpace(text), v6);
  }

  lemma PadFront(pad: string, f: Field)
    ensures f.(before := pad + f.before).Render() == pad + f.Render()
  {
    assert (pad + f.before) + f.text + f.after == pad + (f.before + f.text + f.after);
  }

  lemma PadBack(f: Field, pad: string)
    ensures f.(after := f.after + pad).Render() == f.Render() + pad
  {
    assert f.before + f.text + (f.after + pad) == (f.before + f.text + f.after) + pad;
  }

  /** Putting outer whitespace back around a spelling. */
  lemma Pad(before: string, l: Layout, after: string, r: Rule) returns (padded: Layout)
    requires AllSpace(before) && AllSpace(after) && Spells(l, r)
    ensures padded.Render() == before + l.Render() + after && Spells(padded, r)
  {
    var proto := l.proto.(before := before + l.proto.before);
    PadFront(before, l.proto);
    if l.backend.Some? {
      var backend := l.backend.value.(after := l.backend.value.after + after);
      PadBack(l.backend.value, after);
      padded := Layout(proto, l.port, Some(backend));
      assert padded.RenderPorts() == l.RenderPorts() + after;
    } else {
      PadBack(l.port, after);
      padded := Layout(proto, l.port.(after := l.port.after + after), None);
      assert padded.RenderPorts() == l.RenderPorts() + after;
    }
    assert (before + l.proto.Render()) + "/" + (l.RenderPorts() + after) ==
      before + (l.proto.Render() + "/" + l.RenderPorts()) + after;
  }

  lemma ParsedPartIsEntry(part: string) returns (e: Entry)
    requires TrimSpace(part) != "" ==> ParseRule(TrimSpace(part)).Ok?
    ensures e.Render() == part && e.Valid() && (e.Blank? <==> TrimSpace(part) == "")
    ensures e.Item? ==> e.rule == ParseRule(TrimSpace(part)).value
  {
    var before, after := TrimSpaceShape(part);
    if TrimSpace(part) == "" {
      e := Blank(part);
    } else {
      var r := ParseRule(TrimSpace(part)).value;
      var l := ParsedRuleIsSpelled(TrimSpace(part));
      l := Pad(before, l, after, r);
      e := Item(l, r);
    }
  }

  lemma EntriesSnoc(init: seq<Entry>, e: Entry)
    ensures RenderAll(init + [e]) == RenderAll(init) + [e.Render()]
    ensures RulesOf(init + [e]) == RulesOf(init) + e.Rules()
    ensures AllValid(init) && e.Valid() ==> AllValid(init + [e])
  {
    assert (init + [e])[..|init + [e]| - 1] == init;
  }

  lemma PartExtends(init: seq<Entry>, rules: seq<Rule>, last: string) returns (entries: seq<Entry>)
    requires AllValid(init) && RulesOf(init) == rules && AddPart(Ok(rules), last).Ok?
    ensures AllValid(entries) && RenderAll(entries) == RenderAll(init) + [last]
    ensures RulesOf(entries) == AddPart(Ok(rules), last).value
  {
    var e := ParsedPartIsEntry(last);
    entries := init + [e];
    EntriesSnoc(init, e);
    assert rules + [] == rules;
  }

  lemma {:induction false} ParsedPartsAreEntries(parts: seq<string>) returns (entries: seq<Entry>)
    requires ParseParts(parts).Ok?
    ensures RenderAll(entries) == parts && RulesOf(entries) == ParseParts(parts).value
    ensures AllValid(entries)
  {
    if parts == [] {
      entries := [];
    } else {
      var front, last := parts[..|parts| - 1], parts[|parts| - 1];
      var init := ParsedPartsAreEntries(front);
      entries := PartExtends(init, ParseParts(front).value, last);
      FrontAndLast(parts);
    }
  }

  lemma FrontAndLast<T>(s: seq<T>)
    requires s != []
    ensures s == s[..|s| - 1] + [s[|s| - 1]]
  {
  }

  lemma {:induction false} EntryRulesValid(entries: seq<Entry>)
    requires AllValid(entries)
    ensures forall r | r in RulesOf(entries) :: ValidRule(r)
  {
    if entries != [] {
      var init := entries[..|entries| - 1];
      EntryRulesValid(init);
      assert entries[|entries| - 1].Valid();
      assert forall r | r in RulesOf(entries) ::
        r in RulesOf(init) || entries[|entries| - 1] == Item(entries[|entries| - 1].layout, r);
    }
  }

  /** What acceptance says of the parts of the label. */
  lemma AcceptedParts(lbl: map<string, string>)
    requires ParseLabels(lbl).Ok? && ParseLabels(lbl).value.Some?
    ensures LABEL_EXPOSE in lbl
    ensures ParseParts(Split(lbl[LABEL_EXPOSE], ',')) == Ok(ParseLabels(lbl).value.value.rules)
    ensures ParseLabels(lbl).value.value.rules != []
  {
    assert TrimSpace("") == "";
    hide TrimSpace, ParseParts, Split, ParseV6;
  }

  /** Whatever is accepted is a spelling of the rules returned, which are tcp/udp with ports 1..65535. */
  lemma ParsedLabelsAreRendered(lbl: map<string, string>) returns (entries: seq<Entry>)
    requires ParseLabels(lbl).Ok? && ParseLabels(lbl).value.Some?
    ensures LABEL_EXPOSE in lbl && Exposes(lbl[LABEL_EXPOSE], entries)
    ensures var spec := ParseLabels(lbl).value.value;
            spec.rules == RulesOf(entries) != [] && forall r | r in spec.rules :: ValidRule(r)
  {
    hide ParseLabels, ParseParts, Split, Join, RenderAll, Entry.Valid, ValidRule;
    AcceptedParts(lbl);
    var raw := lbl[LABEL_EXPOSE];
    entries := ParsedPartsAreEntries(Split(raw, ','));
    JoinSplit(raw, ',');
    EntryRulesValid(entries);
  }

  /** The parser accepts exactly the grammar: both directions in one statement. */
  lemma AcceptsExactlyTheGrammar(lbl: map<string, string>, rules: seq<Rule>, v6: V6Mode)
    requires rules != [] && "anchord.expose" in lbl
    ensures ParseLabels(lbl) == Ok(Some(Spec(rules, v6))) <==>
            && V6Spelled(if "anchord.expose.v6" in lbl then lbl["anchord.expose.v6"] else "", v6)
            && exists entries :: Exposes(lbl["anchord.expose"], entries) && RulesOf(entries) == rules
  {
    hide V6Spelled, ParseV6, Exposes, RulesOf, ParseParts, TrimSpace, Split;
    ParseV6Exactly(Lookup(lbl, LABEL_EXPOSE_V6), v6);
    if ParseLabels(lbl) == Ok(Some(Spec(rules, v6))) {
      var entries := ParsedLabelsAreRendered(lbl);
    }
    if ParseV6(Lookup(lbl, LABEL_EXPOSE_V6)) == Ok(v6) {
      forall entries | Exposes(lbl[LABEL_EXPOSE], entries) && RulesOf(entries) == rules
        ensures ParseLabels(lbl) == Ok(Some(Spec(rules, v6)))
      {
        RenderedLabelsParse(entries, lbl, v6);
      }
    }
  }

  predicate BlankOrComma(s: string) {
    forall i | 0 <= i < |s| :: IsSpace(s[i]) || s[i] == ','
  }

  predicate AllBlank(parts: seq<string>) {
    forall i | 0 <= i < |parts| :: AllSpace(parts[i])
  }

  lemma {:induction false} BlankSplit(s: string)
    ensures AllBlank(Split(s, ',')) <==> BlankOrComma(s)
    decreases |s|
  {
    if ',' in s {
      var i := IndexOf(s, ',');
      BlankSplit(s[i + 1..]);
      assert s == s[..i] + [','] + s[i + 1..];
      assert Split(s, ',')[0] == s[..i] && Split(s, ',')[1..] == Split(s[i + 1..], ',');
      BlankCut(s, i);
      BlankHead(Split(s, ','));
    } else {
      assert Split(s, ',') == [s] && [s][0] == s;
    }
    hide IndexOf;
  }

  lemma BlankCut(s: string, i: nat)
    requires i < |s| && s[i] == ',' && ',' !in s[..i]
    ensures BlankOrComma(s) <==> AllSpace(s[..i]) && BlankOrComma(s[i + 1..])
  {
    hide IsSpace;
    forall j | 0 <= j < |s|
      ensures j < i ==> s[j] == s[..i][j] != ','
      ensures j > i ==> s[j] == s[i + 1..][j - i - 1]
    {
    }
  }

  lemma BlankHead(parts: seq<string>)
    requires parts != []
    ensures AllBlank(parts) <==> AllSpace(parts[0]) && AllBlank(parts[1..])
  {
    hide AllSpace;
    forall j | 0 < j < |parts|
      ensures parts[j] == parts[1..][j - 1]
    {
    }
  }

  lemma {:induction false} PartsWithoutRules(parts: seq<string>)
    ensures ParseParts(parts) == Ok([]) <==> AllBlank(parts)
    ensures ParseParts(parts) != Err(SetButEmpty)
  {
    hide ParseRule, TrimSpace, AllSpace, AddPart;
    if parts != [] {
      var k := |parts| - 1;
      PartsWithoutRules(parts[..k]);
      AddsNothing(ParseParts(parts[..k]), parts[k]);
      assert parts == parts[..k] + [parts[k]];
    }
  }

  lemma AddsNothing(acc: Result<seq<Rule>, ParseError>, part: string)
    requires acc != Err(SetButEmpty)
    ensures AddPart(acc, part) == Ok([]) <==> acc == Ok([]) && AllSpace(part)
    ensures AddPart(acc, part) != Err(SetButEmpty)
  {
    hide ParseRule, TrimSpace, AllSpace;
    BlankExactly(part);
    RuleErrors(TrimSpace(part));
  }

  lemma RuleErrors(text: string)
    ensures ParseRule(text) != Err(SetButEmpty)
  {
    hide ParsePort, TrimSpace, ToLower;
  }

  /**
   A label that is absent or blank asks for nothing; one of nothing but blanks and commas,
   with a comma in it, is an error of its own.
   */
  lemma NothingExposed(lbl: map<string, string>)
    ensures ParseLabels(lbl) == Ok(None) <==> "anchord.expose" !in lbl || AllSpace(lbl["anchord.expose"])
    ensures ParseLabels(lbl) == Err(SetButEmpty) <==>
            "anchord.expose" in lbl && BlankOrComma(lbl["anchord.expose"]) && ',' in lbl["anchord.expose"]
  {
    var raw := Lookup(lbl, LABEL_EXPOSE);
    BlankExactly(raw);
    assert ParseV6(Lookup(lbl, LABEL_EXPOSE_V6)) != Err(SetButEmpty) by {
      hide TrimSpace, ToLower;
    }
    PartsWithoutRules(Split(raw, ','));
    BlankSplit(raw);
    assert BlankOrComma(raw) ==> (AllSpace(raw) <==> ',' !in raw);
    hide ParseParts, Split, TrimSpace, ParseV6;
  }

  function CanonicalEntries(rules: seq<Rule>): seq<Entry> {
    if rules == [] then []
    else CanonicalEntries(rules[..|rules| - 1]) + [Item(Canonical(rules[|rules| - 1]), rules[|rules| - 1])]
  }

  /** The text written for a rule list in the documented form. */
  function Print(rules: seq<Rule>): string {
    Join(RenderAll(CanonicalEntries(rules)), ',')
  }

  lemma {:induction false} CanonicalEntriesValid(rules: seq<Rule>)
    requires forall r | r in rules :: ValidRule(r)
    ensures RulesOf(CanonicalEntries(rules)) == rules && AllValid(CanonicalEntries(rules))
  {
    if rules != [] {
      var init, last := rules[..|rules| - 1], rules[|rules| - 1];
      CanonicalEntriesValid(init);
      CanonicalSpells(last);
      EntriesSnoc(CanonicalEntries(init), Item(Canonical(last), last));
      FrontAndLast(rules);
    }
  }

  /** Print then parse is the identity on every valid rule list. */
  lemma PrintParses(rules: seq<Rule>)
    requires rules != [] && forall r | r in rules :: ValidRule(r)
    ensures ParseLabels(map[LABEL_EXPOSE := Print(rules)]) == Ok(Some(Spec(rules, V6Auto)))
  {
    CanonicalEntriesValid(rules);
    assert CanonicalEntries(rules) != [];
    assert ToLower(TrimSpace("")) == "";
    RenderedLabelsParse(CanonicalEntries(rules), map[LABEL_EXPOSE := Print(rules)], V6Auto);
  }
}
