/**
 What the read path and the startup checks accept, field by field, and how that
 meets what the write path can have written.
 */
module Validity {
  import opened Types
  import opened Records
  import opened Json
  import opened ChannelEvents
  import opened Store
  import opened Tokens
  import opened Log
  import opened LogInvariants
  import opened LogRuns
  import opened Requests

  /** A stored token: 43 symbols of the URL-safe alphabet. */
  predicate Token43(token: string) {
    |token| == 43 && forall i :: 0 <= i < |token| ==> IsSymbol(token[i])
  }

  predicate IsSymbol(c: char) {
    'A' <= c <= 'Z' || 'a' <= c <= 'z' || '0' <= c <= '9' || c in "-_"
  }

  lemma {:induction false} TokenValidIff(token: string)
    ensures IsBase64UrlToken(token) <==> Token43(token)
  {
    assert forall c: char :: c in "-_" <==> c == '-' || c == '_';
  }

  /** A message of a client passes the scan if and only if its fields are in range. */
  lemma {:induction false} BusinessMessageValidIff(m: Message)
    requires m.principal != 0
    ensures ValidStoredMessage(m) <==>
              && m.sequence != 0 && m.uuid != 0 && m.channelId != 0 && 0 !in m.recipients
              && |m.objectKeys| <= 1024
              && forall i :: 0 <= i < |m.objectKeys| ==> m.objectKeys[i].objectId != 0 && Token43(m.objectKeys[i].objectToken)
  {
    hide ValidChannelSystemMessage;
    hide IsBase64UrlToken;
    hide Token43;
    forall i | 0 <= i < |m.objectKeys|
      ensures IsBase64UrlToken(m.objectKeys[i].objectToken) <==> Token43(m.objectKeys[i].objectToken)
    {
      TokenValidIff(m.objectKeys[i].objectToken);
    }
  }

  /** The `kind` a payload names, if it is a JSON object with a text of that name. */
  function KindOf(payload: string): Option<string> {
    var p := Parse(payload);
    if p.Got? && p.value.JObject? then TextOf(Field(p.value.members, "kind")) else None
  }

  /** A system message that passes the scan is one of the three events, of a channel, with a UUID and nothing attached. */
  lemma {:induction false} SystemMessageValid(m: Message)
    requires m.principal == 0 && m.sequence != 0 && ValidStoredMessage(m)
    ensures m.uuid != 0 && m.channelId != 0 && m.recipients == [] && m.objectKeys == []
    ensures KindOf(m.payload) == Some("system.channel_initialized") || KindOf(m.payload) == Some("system.member_added")
         || KindOf(m.payload) == Some("system.member_removed")
  {
    hide Parse;
    hide Field;
    hide IsOne;
    hide IsPrincipal;
    hide ValidInitializedData;
  }

  /** Only the initialization message passes under number 0. */
  lemma {:induction false} MessageZeroValid(m: Message)
    requires m.sequence == 0 && ValidStoredMessage(m)
    ensures m.uuid == 0 && m.principal == 0 && m.channelId == 0 && m.recipients == [] && m.objectKeys == []
    ensures KindOf(m.payload) == Some("system.initialization")
  {
    hide Parse;
    hide Field;
    hide IsOne;
  }

  /**
   The read path accepts a channel record with distinct members, the creator first and at
   most 1024 of them, if and only if some request can have created it.
   */
  lemma {:induction false} ChannelValidIffCreatable(c: Channel)
    requires c.id != 0 && Distinct(c.members) && 1 <= |c.members| <= 1024 && c.creator == Some(c.members[0])
    ensures ValidStoredChannel(c) <==> exists db, r :: Creates(db, r, c)
  {
    hide Creates;
    hide ValidStoredChannel;
    if ValidStoredChannel(c) {
      var db, r := CreatingRequest(c);
    }
    if db, r :| Creates(db, r, c) {
      CreatedIsValid(db, r, c);
    }
  }

  lemma {:induction false} CreatedIsValid(db: Db, r: ChannelRequest, c: Channel)
    requires Creates(db, r, c) && c.id != 0
    ensures ValidStoredChannel(c)
  {
    hide InOrderOfMention;
    hide MemberSet;
  }

  lemma {:induction false} CreatingRequest(c: Channel) returns (db: Db, r: ChannelRequest)
    requires Distinct(c.members) && 1 <= |c.members| <= 1024 && c.creator == Some(c.members[0]) && ValidStoredChannel(c)
    ensures Creates(db, r, c)
  {
    hide InOrderOfMention;
    var credential := Credential(c.members[0], "t");
    r := ChannelRequest(credential, c.name, c.protocol, c.description, c.visibility, c.members[1..]);
    db := Db(map[], map[], map[], {credential}, map[], map[], 0, 1, 1, 1);
    assert [c.members[0]] + c.members[1..] == c.members;
    OwnOrder(c.members);
    SetOfList(c.members, MemberSet(r));
  }

  ghost predicate Creates(db: Db, r: ChannelRequest, c: Channel) {
    CreateAdmitted(db, r) && AsAsked(c, c.id, r)
  }

  /** A list without repetitions mentions its elements in its own order. */
  lemma {:induction false} OwnOrder(s: seq<U64>)
    requires Distinct(s)
    ensures InOrderOfMention(s, s)
  {
    hide FirstIndex;
    forall i | 0 <= i < |s|
      ensures s[i] in s && FirstIndex(s, s[i]) == i
    {
      FirstIndexIs(s, s[i], i);
    }
  }

  lemma {:induction false} SetOfList(s: seq<U64>, members: set<U64>)
    requires |s| > 0 && Distinct(s) && members == {s[0]} + set m | m in s[1..]
    ensures |members| == |s|
  {
    assert s == [s[0]] + s[1..];
    DistinctCount(s, members);
  }

  /** A channel record is accepted if and only if every field is in range. */
  lemma {:induction false} ChannelValidIff(c: Channel)
    ensures ValidStoredChannel(c) <==>
              && c.id != 0 && c.creator.Some? && c.creator.value != 0 && 1 <= |c.name| <= 255 && |c.protocol| <= 255
              && |c.description| <= 4096 && (c.visibility.Public? || c.visibility.Protected? || c.visibility.Private?)
              && c.creator.value in c.members && 0 !in c.members
  {
  }

  /** The server refuses to start on a store without its counters, its message 0 or the mapping of its UUID. */
  lemma {:induction false} StartupRefuses(db: Db)
    requires || db.nextUuid == 0 || db.nextChannelId == 0 || db.nextObjectId == 0
             || 0 !in db.messages || !ValidInitializationMessage(db.messages[0])
             || 0 !in db.usedUuids || db.usedUuids[0] != 0
    ensures !StartupValid(db)
  {
    hide ValidInitializationMessage;
  }

  /** And starts on every other. */
  lemma {:induction false} StartupAccepts(db: Db)
    requires db.nextUuid != 0 && db.nextChannelId != 0 && db.nextObjectId != 0
    requires 0 in db.messages && ValidInitializationMessage(db.messages[0]) && 0 in db.usedUuids && db.usedUuids[0] == 0
    ensures StartupValid(db)
  {
    hide ValidInitializationMessage;
  }

  /** Every message of every reachable log, in full: message 0, an event of a channel, or a client's message in range. */
  lemma {:induction false} LoggedMessagesInRange(maxPayload: nat, run: Run, i: nat, s: nat)
    requires IsRun(maxPayload, run) && i < |run.states| && s in run.states[i].messages
    ensures var m := run.states[i].messages[s];
            && m.sequence == s && (s == 0 <==> m.channelId == 0) && (s == 0 <==> m.uuid == 0) && 0 !in m.recipients
            && |m.objectKeys| <= 1024 && (m.principal == 0 ==> m.recipients == [] && m.objectKeys == [])
            && forall k :: 0 <= k < |m.objectKeys| ==> m.objectKeys[k].objectId != 0 && Token43(m.objectKeys[k].objectToken)
  {
    hide IsRun;
    hide Replay;
    hide Justified;
    hide ValidStoredMessage;
    hide ValidObject;
    hide KindOf;
    hide Token43;
    RunInv(maxPayload, run, i);
    var m := run.states[i].messages[s];
    if m.principal != 0 {
      BusinessMessageValidIff(m);
    } else if s != 0 {
      SystemMessageValid(m);
    } else {
      MessageZeroValid(m);
    }
  }
}
