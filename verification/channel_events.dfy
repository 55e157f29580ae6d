/**
 The system events that record every channel change in the log: how they are
 printed, what a reader recovers from them, and the validators they must pass.
 */
module ChannelEvents {
  import opened Types
  import opened Records
  import opened Decimal
  import opened Json

  datatype Event =
    | Initialized(name: string, protocol: string, description: string, visibility: Visibility,
                  creator: U64, members: seq<U64>)
    | MemberAdded(member: U64)
    | MemberRemoved(member: U64)

  // ---------------------------------------------------------------- printing

  function VisibilityName(v: Visibility): string {
    match v
    case Private => "private"
    case Protected => "protected"
    case _ => "public"
  }

  function Number(n: nat): Json {
    JNumber(ToString(n))
  }

  function Numbers(ns: seq<U64>): (r: seq<Json>)
    ensures |r| == |ns| && forall i :: 0 <= i < |r| ==> r[i] == Number(ns[i])
  {
    seq(|ns|, i requires 0 <= i < |ns| => Number(ns[i]))
  }

  function Envelope(kind: string, data: seq<Member>): Json {
    JObject([Member("kind", JString(kind)), Member("data", JObject([Member("schema_version", Number(1))] + data))])
  }

  function InitializedData(c: Channel): seq<Member> {
    [Member("name", JString(c.name)),
     Member("protocol", JString(c.protocol)),
     Member("description", JString(c.description)),
     Member("visibility", JString(VisibilityName(c.visibility))),
     Member("creator", Number(if c.creator.Some? then c.creator.value else 0)),
     Member("members", JArray(Numbers(c.members)))]
  }

  /** The JSON document of a channel initialization. */
  function InitializedTree(c: Channel): Json {
    Envelope("system.channel_initialized", InitializedData(c))
  }

  /** The JSON document of a membership change. */
  function MemberTree(kind: string, member: U64): Json {
    Envelope(kind, [Member("member", Number(member))])
  }

  function InitializedText(c: Channel): string {
    Print(InitializedTree(c))
  }

  function MemberText(kind: string, member: U64): string {
    Print(MemberTree(kind, member))
  }

  predicate Plain(s: string) {
    forall i :: 0 <= i < |s| ==> s[i] != '"' && s[i] != '\\' && s[i] >= ' '
  }

  lemma {:induction false} EscapePlain(s: string)
    requires Plain(s)
    ensures Escape(s) == s
  {
    if |s| > 0 {
      EscapePlain(s[1..]);
      assert s == [s[0]] + s[1..];
    }
  }

  lemma {:induction false} EscapeSnoc(s: string, c: char)
    ensures Escape(s + [c]) == Escape(s) + EscapeChar(c)
  {
    if |s| == 0 {
      assert s + [c] == [c] && [c][1..] == "";
    } else {
      EscapeSnoc(s[1..], c);
      assert (s + [c])[1..] == s[1..] + [c] && (s + [c])[0] == s[0];
      var head, middle, last := EscapeChar(s[0]), Escape(s[1..]), EscapeChar(c);
      assert (head + middle) + last == head + (middle + last);
    }
  }

  lemma {:induction false} EscapeStep(value: string, k: nat)
    requires k < |value|
    ensures "\"" + Escape(value[..k + 1]) == ("\"" + Escape(value[..k])) + EscapeChar(value[k])
  {
    EscapeSnoc(value[..k], value[k]);
    assert value[..k + 1] == value[..k] + [value[k]];
  }

  method JsonString(value: string) returns (encoded: string)
    ensures encoded == Quote(value)
  {
    encoded := "\"";
    for k := 0 to |value|
      invariant encoded == "\"" + Escape(value[..k])
    {
      var ch := value[k];
      EscapeStep(value, k);
      var text := [ch];
      if ch == '"' || ch == '\\' {
        text := ['\\', ch];
      } else if ch < ' ' {
        text := ['\\', 'u', '0', '0', HEX[ch as int / 16], HEX[ch as int % 16]];
      }
      encoded := encoded + text;
    }
    assert value[..|value|] == value;
    encoded := encoded + ['"'];
  }

  lemma {:induction false} PrintItemsSnoc(items: seq<Json>, last: Json)
    requires |items| > 0
    ensures PrintItems(items + [last]) == PrintItems(items) + "," + Print(last)
  {
    if |items| == 1 {
      assert (items + [last])[1..] == [last];
    } else {
      PrintItemsSnoc(items[1..], last);
      assert (items + [last])[1..] == items[1..] + [last];
    }
  }

  /** The comma-separated member list of `ChannelInitializedPayload`. */
  method MemberList(members: seq<U64>) returns (text: string)
    ensures text == PrintItems(Numbers(members))
  {
    text := "";
    for index := 0 to |members|
      invariant text == PrintItems(Numbers(members)[..index])
    {
      var done := Numbers(members)[..index];
      assert Numbers(members)[..index + 1] == done + [Number(members[index])];
      if index != 0 {
        PrintItemsSnoc(done, Number(members[index]));
        text := text + ",";
      }
      text := text + ToString(members[index]);
    }
    assert Numbers(members)[..|members|] == Numbers(members);
  }

  lemma {:induction false} PrintMembersCons(m: Member, rest: seq<Member>)
    requires |rest| > 0
    ensures PrintMembers([m] + rest) == PrintMember(m) + "," + PrintMembers(rest)
  {
    assert ([m] + rest)[1..] == rest;
  }

  function Tag(name: string): string {
    "\"" + name + "\":"
  }

  lemma {:induction false} PrintMemberPlain(name: string, value: Json)
    requires Plain(name)
    ensures PrintMember(Member(name, value)) == Tag(name) + Print(value)
  {
    EscapePlain(name);
    assert "\"" + name + "\"" + ":" == Tag(name);
  }

  /** The frame every document shares, around the printed `data` members. */
  function Framed(kind: string, data: string): string {
    "{" + (Tag("kind") + ("\"" + kind + "\"") + "," +
           (Tag("data") + ("{" + (Tag("schema_version") + "1" + "," + data) + "}"))) + "}"
  }

  lemma {:induction false} PrintEnvelope(kind: string, data: seq<Member>)
    requires Plain(kind) && |data| > 0
    ensures Print(Envelope(kind, data)) == Framed(kind, PrintMembers(data))
  {
    var version := Member("schema_version", Number(1));
    var inner := JObject([version] + data);
    PrintMemberPlain("schema_version", Number(1));
    PrintMembersCons(version, data);
    assert ToString(1) == "1";
    PrintOuter(kind, inner);
  }

  lemma {:induction false} PrintOuter(kind: string, inner: Json)
    requires Plain(kind)
    ensures Print(JObject([Member("kind", JString(kind)), Member("data", inner)])) ==
            "{" + (Tag("kind") + ("\"" + kind + "\"") + "," + (Tag("data") + Print(inner))) + "}"
  {
    EscapePlain(kind);
    PrintMemberPlain("kind", JString(kind));
    PrintMemberPlain("data", inner);
    PrintMembersCons(Member("kind", JString(kind)), [Member("data", inner)]);
    assert [Member("kind", JString(kind))] + [Member("data", inner)] ==
           [Member("kind", JString(kind)), Member("data", inner)];
  }

  lemma {:induction false} PrintMembersStep(d: seq<Member>, i: nat)
    requires i + 1 < |d|
    ensures PrintMembers(d[i..]) == PrintMember(d[i]) + "," + PrintMembers(d[i + 1..])
  {
    assert d[i..] == [d[i]] + d[i + 1..];
    PrintMembersCons(d[i], d[i + 1..]);
  }

  lemma {:induction false} PlainNames()
    ensures Plain("name") && Plain("protocol") && Plain("description")
    ensures Plain("visibility") && Plain("creator") && Plain("members")
  {
  }

  lemma {:induction false} PlainVisibility(v: Visibility)
    ensures Quote(VisibilityName(v)) == "\"" + VisibilityName(v) + "\""
  {
    VisibilityNamePlain(v);
    EscapePlain(VisibilityName(v));
  }

  lemma {:induction false} VisibilityNamePlain(v: Visibility)
    ensures Plain(VisibilityName(v))
  {
  }

  lemma {:induction false} PrintFields(d: seq<Member>)
    requires |d| == 6 && forall i :: 0 <= i < 6 ==> Plain(d[i].name)
    ensures PrintMembers(d) ==
            (Tag(d[0].name) + Print(d[0].value)) + "," + ((Tag(d[1].name) + Print(d[1].value)) + "," +
            ((Tag(d[2].name) + Print(d[2].value)) + "," + ((Tag(d[3].name) + Print(d[3].value)) + "," +
            ((Tag(d[4].name) + Print(d[4].value)) + "," + (Tag(d[5].name) + Print(d[5].value))))))
  {
    PrintMembersStep(d, 0);
    PrintMembersStep(d, 1);
    PrintMembersStep(d, 2);
    PrintMembersStep(d, 3);
    PrintMembersStep(d, 4);
    assert d[0..] == d;
    assert PrintMembers(d[5..]) == PrintMember(d[5]);
    forall i | 0 <= i < 6
      ensures PrintMember(d[i]) == Tag(d[i].name) + Print(d[i].value)
    {
      PrintMemberPlain(d[i].name, d[i].value);
    }
  }

  /** The fields of `data`, joined by commas in the order the payload lists them. */
  function JoinedFields(name: string, protocol: string, description: string, visibility: string,
                        creator: string, members: string): string {
    Tag("name") + name + "," +
    (Tag("protocol") + protocol + "," +
     (Tag("description") + description + "," +
      (Tag("visibility") + ("\"" + visibility + "\"") + "," +
       (Tag("creator") + creator + "," +
        (Tag("members") + ("[" + members + "]"))))))
  }

  lemma {:induction false} PrintInitializedData(c: Channel)
    ensures PrintMembers(InitializedData(c)) ==
            JoinedFields(Quote(c.name), Quote(c.protocol), Quote(c.description), VisibilityName(c.visibility),
                         ToString(if c.creator.Some? then c.creator.value else 0), PrintItems(Numbers(c.members)))
  {
    hide PrintMembers;
    hide PrintItems;
    hide ToString;
    hide Tag;
    hide Plain;
    PlainNames();
    PlainVisibility(c.visibility);
    PrintFields(InitializedData(c));
  }

  lemma {:induction false} InitializedTextIs(c: Channel)
    ensures InitializedText(c) == Framed("system.channel_initialized",
              JoinedFields(Quote(c.name), Quote(c.protocol), Quote(c.description), VisibilityName(c.visibility),
                           ToString(if c.creator.Some? then c.creator.value else 0), PrintItems(Numbers(c.members))))
  {
    KindsPlain();
    PrintEnvelope("system.channel_initialized", InitializedData(c));
    PrintInitializedData(c);
  }

  lemma {:induction false} KindsPlain()
    ensures Plain("system.channel_initialized") && Plain("system.member_added") && Plain("system.member_removed")
  {
  }

  /** `ChannelInitializedPayload`: the text of the channel's initialization document. */
  method ChannelInitializedPayload(c: Channel) returns (payload: string)
    ensures payload == InitializedText(c)
  {
    var visibility :=
      if c.visibility.Private? then "private" else if c.visibility.Protected? then "protected" else "public";
    var name := JsonString(c.name);
    var protocol := JsonString(c.protocol);
    var description := JsonString(c.description);
    var members := MemberList(c.members);
    var creator := ToString(if c.creator.Some? then c.creator.value else 0);
    var data := JoinedFields(name, protocol, description, visibility, creator, members);
    InitializedTextIs(c);
    payload := Framed("system.channel_initialized", data);
  }

  /** `MemberChangedPayload`: the text of a membership document. */
  method MemberChangedPayload(kind: string, member: U64) returns (payload: string)
    requires Plain(kind)
    ensures payload == MemberText(kind, member)
  {
    payload := Framed(kind, Tag("member") + ToString(member));
    PrintEnvelope(kind, [Member("member", Number(member))]);
    PrintMemberPlain("member", Number(member));
  }

  // ---------------------------------------------------------------- reading

  /** The value of the first member called `name`. */
  function Field(members: seq<Member>, name: string): Option<Json> {
    if |members| == 0 then None
    else if members[0].name == name then Some(members[0].value)
    else Field(members[1..], name)
  }

  lemma {:induction false} FieldAt(members: seq<Member>, i: nat)
    requires i < |members|
    requires forall j :: 0 <= j < i ==> members[j].name != members[i].name
    ensures Field(members, members[i].name) == Some(members[i].value)
  {
    if i > 0 {
      FieldAt(members[1..], i - 1);
    }
  }

  lemma {:induction false} FieldAbsent(members: seq<Member>, name: string)
    requires forall j :: 0 <= j < |members| ==> members[j].name != name
    ensures Field(members, name) == None
  {
    if |members| > 0 {
      FieldAbsent(members[1..], name);
    }
  }

  function NumberOf(j: Option<Json>): Option<U64> {
    if j.Some? && j.value.JNumber? && AllDigits(j.value.lexeme) && Value(j.value.lexeme) < TWO64
    then Some(Value(j.value.lexeme)) else None
  }

  function NumbersOf(items: seq<Json>): Option<seq<U64>> {
    if |items| == 0 then Some([])
    else
      var head := NumberOf(Some(items[0]));
      var tail := NumbersOf(items[1..]);
      if head.Some? && tail.Some? then Some([head.value] + tail.value) else None
  }

  function TextOf(j: Option<Json>): Option<string> {
    if j.Some? && j.value.JString? then Some(j.value.text) else None
  }

  function VisibilityOf(name: string): Option<Visibility> {
    if name == "private" then Some(Private)
    else if name == "protected" then Some(Protected)
    else if name == "public" then Some(Public)
    else None
  }

  function InitializedOf(data: seq<Member>): Option<Event> {
    var name, protocol, description :=
      TextOf(Field(data, "name")), TextOf(Field(data, "protocol")), TextOf(Field(data, "description"));
    var visibility := TextOf(Field(data, "visibility"));
    var creator, members := NumberOf(Field(data, "creator")), Field(data, "members");
    if name.Some? && protocol.Some? && description.Some? && visibility.Some? && VisibilityOf(visibility.value).Some?
       && creator.Some? && members.Some? && members.value.JArray? && NumbersOf(members.value.items).Some?
    then Some(Initialized(name.value, protocol.value, description.value, VisibilityOf(visibility.value).value,
                          creator.value, NumbersOf(members.value.items).value))
    else None
  }

  function EventOfTree(j: Json): Option<Event> {
    if !j.JObject? then None
    else
      var kind, data := TextOf(Field(j.members, "kind")), Field(j.members, "data");
      if !kind.Some? || !data.Some? || !data.value.JObject? then None
      else if kind.value == "system.channel_initialized" then InitializedOf(data.value.members)
      else
        var member := NumberOf(Field(data.value.members, "member"));
        if !member.Some? then None
        else if kind.value == "system.member_added" then Some(MemberAdded(member.value))
        else if kind.value == "system.member_removed" then Some(MemberRemoved(member.value))
        else None
  }

  /** The event a payload stands for. */
  function EventOf(payload: string): Option<Event> {
    var p := Parse(payload);
    if p.Got? then EventOfTree(p.value) else None
  }

  lemma {:induction false} NumberInverse(n: U64)
    ensures NumberOf(Some(Number(n))) == Some(n)
  {
    ValueOfToString(n);
  }

  lemma {:induction false} NumbersInverse(ns: seq<U64>)
    ensures NumbersOf(Numbers(ns)) == Some(ns)
  {
    if |ns| > 0 {
      NumberInverse(ns[0]);
      NumbersInverse(ns[1..]);
      assert Numbers(ns)[1..] == Numbers(ns[1..]);
      assert ns == [ns[0]] + ns[1..];
    }
  }

  /** Every document the server prints is a printable JSON value. */
  lemma {:induction false} EnvelopePrintable(kind: string, data: seq<Member>)
    requires forall i :: 0 <= i < |data| ==> Printable(data[i].value)
    ensures Printable(Envelope(kind, data))
  {
    DecimalIsNumber(1);
    var inner := [Member("schema_version", Number(1))] + data;
    assert forall i :: 0 <= i < |inner| ==> Printable(inner[i].value);
  }

  lemma {:induction false} InitializedPrintable(c: Channel)
    ensures Printable(InitializedTree(c))
  {
    var items := Numbers(c.members);
    forall i | 0 <= i < |items|
      ensures Printable(items[i])
    {
      DecimalIsNumber(c.members[i]);
    }
    DecimalIsNumber(if c.creator.Some? then c.creator.value else 0);
    EnvelopePrintable("system.channel_initialized", InitializedData(c));
  }

  lemma {:induction false} EnvelopeFields(kind: string, data: seq<Member>)
    ensures var members := Envelope(kind, data).members;
            && Field(members, "kind") == Some(JString(kind))
            && Field(members, "data") == Some(JObject([Member("schema_version", Number(1))] + data))
  {
    var members := Envelope(kind, data).members;
    FieldAt(members, 0);
    FieldAt(members, 1);
  }

  lemma {:induction false} InitializedFields(c: Channel)
    ensures var data := [Member("schema_version", Number(1))] + InitializedData(c);
            && Field(data, "schema_version") == Some(Number(1))
            && Field(data, "name") == Some(JString(c.name))
            && Field(data, "protocol") == Some(JString(c.protocol))
            && Field(data, "description") == Some(JString(c.description))
            && Field(data, "visibility") == Some(JString(VisibilityName(c.visibility)))
            && Field(data, "creator") == Some(Number(if c.creator.Some? then c.creator.value else 0))
            && Field(data, "members") == Some(JArray(Numbers(c.members)))
  {
    var data := [Member("schema_version", Number(1))] + InitializedData(c);
    FieldAt(data, 0);
    FieldAt(data, 1);
    FieldAt(data, 2);
    FieldAt(data, 3);
    FieldAt(data, 4);
    FieldAt(data, 5);
    FieldAt(data, 6);
  }

  /** The record an initialization event stands for. */
  function ChannelOf(id: nat, e: Event): Channel
    requires e.Initialized?
  {
    Channel(id, e.name, e.protocol, e.description, e.visibility, Some(e.creator), e.members)
  }

  /**
   Parsing an initialization payload recovers the whole channel record: name,
   protocol, description, visibility, the exact creator and the ordered members.
   */
  lemma {:induction false} InitializedRoundTrip(c: Channel)
    requires c.creator.Some? && !c.visibility.Unknown?
    ensures var e := EventOf(InitializedText(c));
            e.Some? && e.value.Initialized? && ChannelOf(c.id, e.value) == c
  {
    InitializedPrintable(c);
    RoundTrip(InitializedTree(c));
    EnvelopeFields("system.channel_initialized", InitializedData(c));
    InitializedFields(c);
    NumberInverse(c.creator.value);
    NumbersInverse(c.members);
  }

  /** Parsing a membership payload recovers the exact member. */
  lemma {:induction false} MemberRoundTrip(member: U64)
    ensures EventOf(MemberText("system.member_added", member)) == Some(MemberAdded(member))
    ensures EventOf(MemberText("system.member_removed", member)) == Some(MemberRemoved(member))
  {
    MemberTreeParses("system.member_added", member);
    MemberTreeParses("system.member_removed", member);
  }

  lemma {:induction false} MemberTreeParses(kind: string, member: U64)
    ensures Parse(MemberText(kind, member)) == Got(MemberTree(kind, member), "")
    ensures var members := MemberTree(kind, member).members;
            && TextOf(Field(members, "kind")) == Some(kind)
            && Field(members, "data").Some? && Field(members, "data").value.JObject?
            && var data := Field(members, "data").value.members;
            && Field(data, "schema_version") == Some(Number(1))
            && Field(data, "member") == Some(Number(member))
            && NumberOf(Field(data, "member")) == Some(member)
  {
    var tail := [Member("member", Number(member))];
    DecimalIsNumber(member);
    EnvelopePrintable(kind, tail);
    RoundTrip(MemberTree(kind, member));
    EnvelopeFields(kind, tail);
    var data := [Member("schema_version", Number(1))] + tail;
    FieldAt(data, 0);
    FieldAt(data, 1);
    NumberInverse(member);
  }

  // ---------------------------------------------------------------- validation

  predicate IsOne(j: Option<Json>) {
    j.Some? && j.value.JNumber? && ValidNumber(j.value.lexeme) && NumberValue(j.value.lexeme) == 1.0
  }

  /** A positive integer no larger than the double nearest to the largest 64-bit value. */
  predicate IsPrincipal(j: Json) {
    j.JNumber? && ValidNumber(j.lexeme) && PrincipalValue(NumberValue(j.lexeme))
  }

  predicate PrincipalValue(v: real) {
    v > 0.0 && v.Floor as real == v && v <= TWO64 as real
  }

  predicate Lacks(members: seq<Member>, name: string) {
    Field(members, name).None?
  }

  /** The payload part of `ValidChannelSystemMessage`. */
  predicate ValidChannelPayload(payload: string) {
    var p := Parse(payload);
    p.Got? && p.value.JObject? && ValidChannelDocument(p.value.members)
  }

  predicate ValidChannelDocument(fields: seq<Member>) {
    var kind, data := TextOf(Field(fields, "kind")), Field(fields, "data");
    && kind.Some? && data.Some? && data.value.JObject?
    && Lacks(fields, "seq") && Lacks(fields, "channel_id") && Lacks(fields, "principal")
    && Lacks(fields, "uuid") && Lacks(fields, "ts_ms")
    && IsOne(Field(data.value.members, "schema_version"))
    && if kind.value == "system.member_added" || kind.value == "system.member_removed" then
         Field(data.value.members, "member").Some? && IsPrincipal(Field(data.value.members, "member").value)
       else
         kind.value == "system.channel_initialized" && ValidInitializedData(data.value.members)
  }

  predicate ValidInitializedData(data: seq<Member>) {
    var visibility, creator, members :=
      TextOf(Field(data, "visibility")), Field(data, "creator"), Field(data, "members");
    && TextOf(Field(data, "name")).Some? && TextOf(Field(data, "protocol")).Some?
    && TextOf(Field(data, "description")).Some? && visibility.Some?
    && (visibility.value == "public" || visibility.value == "protected" || visibility.value == "private")
    && creator.Some? && IsPrincipal(creator.value)
    && members.Some? && members.value.JArray? && |members.value.items| > 0
    && forall i :: 0 <= i < |members.value.items| ==> IsPrincipal(members.value.items[i])
  }

  predicate ValidChannelSystemMessage(m: Message) {
    |m.recipients| == 0 && |m.objectKeys| == 0 && ValidChannelPayload(m.payload)
  }

  /** The payload of message 0. */
  function InitializationText(): string {
    "{" + ("\"kind\":\"system.initialization\"" + "," + "\"data\":{\"schema_version\":1}") + "}"
  }

  lemma {:induction false} PrintVersion()
    ensures Print(JObject([Member("schema_version", Number(1))])) == "{" + (Tag("schema_version") + "1") + "}"
  {
    var version := Member("schema_version", Number(1));
    PrintMemberPlain("schema_version", Number(1));
    assert Print(Number(1)) == "1" by {
      assert ToString(1) == "1";
    }
    assert PrintMembers([version]) == PrintMember(version);
  }

  lemma {:induction false} PrintBareEnvelope(kind: string)
    requires Plain(kind)
    ensures Print(Envelope(kind, [])) ==
            "{" + (Tag("kind") + ("\"" + kind + "\"") + "," + (Tag("data") + ("{" + (Tag("schema_version") + "1") + "}"))) + "}"
  {
    hide Print;
    var version := Member("schema_version", Number(1));
    assert [version] + [] == [version];
    PrintOuter(kind, JObject([version]));
    PrintVersion();
  }

  lemma {:induction false} QuotedKind()
    ensures Tag("kind") + ("\"" + "system.initialization" + "\"") == "\"kind\":\"system.initialization\""
  {
    var quoted := "\"" + "system.initialization" + "\"";
    assert quoted == "\"system.initialization\"";
    assert Tag("kind") == "\"kind\":";
  }

  lemma {:induction false} VersionText()
    ensures Tag("schema_version") + "1" == "\"schema_version\":1"
  {
    assert Tag("schema_version") == "\"schema_version\":";
  }

  lemma {:induction false} BracedVersion(version: string)
    requires version == "\"schema_version\":1"
    ensures "{" + version + "}" == "{\"schema_version\":1}"
  {
  }

  lemma {:induction false} BareData(braced: string)
    requires braced == "{\"schema_version\":1}"
    ensures Tag("data") + braced == "\"data\":{\"schema_version\":1}"
  {
    assert Tag("data") == "\"data\":";
  }

  lemma {:induction false} InitializationTextIs()
    ensures InitializationText() == Print(Envelope("system.initialization", []))
  {
    hide Print;
    hide Envelope;
    PrintBareEnvelope("system.initialization");
    QuotedKind();
    VersionText();
    BracedVersion(Tag("schema_version") + "1");
    BareData("{" + (Tag("schema_version") + "1") + "}");
  }

  predicate ValidInitializationMessage(m: Message) {
    && m.sequence == 0 && m.uuid == 0 && m.principal == 0 && m.channelId == 0
    && |m.recipients| == 0 && |m.objectKeys| == 0
    && var p := Parse(m.payload);
    && p.Got? && p.value.JObject?
    && TextOf(Field(p.value.members, "kind")) == Some("system.initialization")
    && Field(p.value.members, "data").Some? && Field(p.value.members, "data").value.JObject?
    && IsOne(Field(Field(p.value.members, "data").value.members, "schema_version"))
    && Lacks(p.value.members, "seq") && Lacks(p.value.members, "channel_id")
    && Lacks(p.value.members, "principal") && Lacks(p.value.members, "uuid")
  }

  lemma {:induction false} OneIsOne()
    ensures IsOne(Some(Number(1)))
  {
    DecimalIsNumber(1);
  }

  lemma {:induction false} PrincipalIsPrincipal(n: U64)
    requires n > 0
    ensures IsPrincipal(Number(n))
  {
    DecimalIsNumber(n);
  }

  lemma {:induction false} EnvelopeLacks(kind: string, data: seq<Member>)
    ensures var f := Envelope(kind, data).members;
            && Lacks(f, "seq") && Lacks(f, "channel_id") && Lacks(f, "principal")
            && Lacks(f, "uuid") && Lacks(f, "ts_ms")
  {
    var f := Envelope(kind, data).members;
    FieldAbsent(f, "seq");
    FieldAbsent(f, "channel_id");
    FieldAbsent(f, "principal");
    FieldAbsent(f, "uuid");
    FieldAbsent(f, "ts_ms");
  }

  /** What the write path prints for a channel, the read path accepts. */
  lemma {:induction false} InitializedAccepted(c: Channel)
    requires c.creator.Some? && c.creator.value > 0 && |c.members| > 0
    requires forall i :: 0 <= i < |c.members| ==> c.members[i] > 0
    ensures ValidChannelPayload(InitializedText(c))
  {
    InitializedPrintable(c);
    RoundTrip(InitializedTree(c));
    EnvelopeFields("system.channel_initialized", InitializedData(c));
    EnvelopeLacks("system.channel_initialized", InitializedData(c));
    InitializedFields(c);
    OneIsOne();
    PrincipalIsPrincipal(c.creator.value);
    forall i | 0 <= i < |c.members|
      ensures IsPrincipal(Numbers(c.members)[i])
    {
      PrincipalIsPrincipal(c.members[i]);
    }
  }

  lemma {:induction false} MemberAccepted(kind: string, member: U64)
    requires kind == "system.member_added" || kind == "system.member_removed"
    requires member > 0
    ensures ValidChannelPayload(MemberText(kind, member))
  {
    MemberTreeParses(kind, member);
    EnvelopeLacks(kind, [Member("member", Number(member))]);
    OneIsOne();
    PrincipalIsPrincipal(member);
  }

  lemma {:induction false} InitializationAccepted(m: Message)
    requires m.sequence == 0 && m.uuid == 0 && m.principal == 0 && m.channelId == 0
    requires m.recipients == [] && m.objectKeys == [] && m.payload == InitializationText()
    ensures ValidInitializationMessage(m)
  {
    var kind := "system.initialization";
    var version := Member("schema_version", Number(1));
    hide InitializationText;
    InitializationTextIs();
    EnvelopePrintable(kind, []);
    RoundTrip(Envelope(kind, []));
    EnvelopeFields(kind, []);
    EnvelopeLacks(kind, []);
    hide Print;
    hide Parse;
    assert [version] + [] == [version];
    FieldAt([version], 0);
    OneIsOne();
  }
}
