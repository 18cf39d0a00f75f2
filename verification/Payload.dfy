/** What the filter reads out of a transport payload: HTTP requests to the game server's
    endpoints, and the ENet header of a game datagram. */
module Payload {
  import opened Bytes
  import opened Options

  const UA_SCAN_BYTES: nat := 512
  const UA_NEEDLE_LEN: nat := 10
  const UA_SCAN_POSITIONS: nat := UA_SCAN_BYTES - UA_NEEDLE_LEN + 1

  const SLASH: byte := 0x2f
  const CARRIAGE_RETURN: byte := 0x0d

  // "POST /client"
  const POST_CLIENT: Bytes := [80, 79, 83, 84, 32, 47, 99, 108, 105, 101, 110, 116]
  // "GET /"
  const GET_ROOT: Bytes := [71, 69, 84, 32, 47]
  // "info.json"
  const INFO_JSON: Bytes := [105, 110, 102, 111, 46, 106, 115, 111, 110]
  // "dynamic.json"
  const DYNAMIC_JSON: Bytes := [100, 121, 110, 97, 109, 105, 99, 46, 106, 115, 111, 110]
  // "players.json"
  const PLAYERS_JSON: Bytes := [112, 108, 97, 121, 101, 114, 115, 46, 106, 115, 111, 110]
  // "CitizenFX"
  const CITIZEN_FX: Bytes := [67, 105, 116, 105, 122, 101, 110, 70, 88]

  /** UA_UNKNOWN, UA_VALID and UA_BOT. */
  datatype UserAgent = UaUnknown | UaValid | UaBot

  datatype Request =
    | NoRequest
    | PostClient(ua: UserAgent)
    | GetInfo(ua: UserAgent)

  // ----- user agent -----

  /** `CitizenFX` starts at `i`, and it and the byte after it lie in the scanned part of `p`. */
  predicate NeedleAt(p: Bytes, i: nat) {
    && i + UA_NEEDLE_LEN <= |p|
    && i + UA_NEEDLE_LEN <= UA_SCAN_BYTES
    && p[i..i + 9] == CITIZEN_FX
  }

  /** The class the byte after the needle decides. */
  function ClassOf(b: byte): UserAgent {
    if b == SLASH then UaValid
    else if b == CARRIAGE_RETURN then UaBot
    else UaUnknown
  }

  /** The first needle at or after `from`. */
  function FindNeedle(p: Bytes, from: nat): (r: Option<nat>)
    ensures r.Some? ==>
              && from <= r.value && NeedleAt(p, r.value)
              && forall j :: from <= j < r.value ==> !NeedleAt(p, j)
    ensures r.None? ==> forall j :: from <= j ==> !NeedleAt(p, j)
    decreases UA_SCAN_BYTES - from
  {
    if from + UA_NEEDLE_LEN > UA_SCAN_BYTES || from + UA_NEEDLE_LEN > |p| then None
    else if NeedleAt(p, from) then Some(from)
    else FindNeedle(p, from + 1)
  }

  function AgentOf(p: Bytes): UserAgent {
    match FindNeedle(p, 0)
    case None => UaUnknown
    case Some(i) => ClassOf(p[i + 9])
  }

  /** The nine comparisons the scan makes at `i`. */
  predicate Spells(p: Bytes, i: nat)
    requires i + 9 <= |p|
  {
    && p[i] == 67 && p[i + 1] == 105 && p[i + 2] == 116 && p[i + 3] == 105 && p[i + 4] == 122
    && p[i + 5] == 101 && p[i + 6] == 110 && p[i + 7] == 70 && p[i + 8] == 88
  }

  lemma SpellsIsNeedle(p: Bytes, i: nat)
    requires i + 9 <= |p|
    ensures Spells(p, i) <==> p[i..i + 9] == CITIZEN_FX
  {
    var window := p[i..i + 9];
    assert forall j :: 0 <= j < 9 ==> window[j] == p[i + j];
    if window == CITIZEN_FX {
      assert CITIZEN_FX[0] == 67 && CITIZEN_FX[1] == 105 && CITIZEN_FX[2] == 116 && CITIZEN_FX[3] == 105;
      assert CITIZEN_FX[4] == 122 && CITIZEN_FX[5] == 101 && CITIZEN_FX[6] == 110 && CITIZEN_FX[7] == 70;
    }
  }

  /** The bounded scan over the payload, byte by byte. */
  method ScanUserAgent(payload: Bytes) returns (ua: UserAgent)
    ensures ua == AgentOf(payload)
  {
    for i := 0 to UA_SCAN_POSITIONS
      invariant FindNeedle(payload, 0) == FindNeedle(payload, i)
    {
      if i + UA_NEEDLE_LEN > |payload| {
        return UaUnknown;
      }
      SpellsIsNeedle(payload, i);
      if Spells(payload, i) {
        if payload[i + 9] == SLASH {
          return UaValid;
        }
        if payload[i + 9] == CARRIAGE_RETURN {
          return UaBot;
        }
        return UaUnknown;
      }
    }
    return UaUnknown;
  }

  /** `CitizenFX` and one byte more lie at `i` in the payload and in its first 512 bytes. */
  predicate AgentAt(p: Bytes, i: nat) {
    i + 10 <= |p| && i + 10 <= 512 && p[i..i + 9] == Ascii("CitizenFX")
  }

  lemma NeedleIsText(p: Bytes, i: nat)
    ensures NeedleAt(p, i) <==> AgentAt(p, i)
  {
    CitizenFxText();
  }

  lemma CitizenFxText()
    ensures CITIZEN_FX == Ascii("CitizenFX")
  {
    var t := Ascii("CitizenFX");
    assert t[0] == 67 && t[1] == 105 && t[2] == 116 && t[3] == 105 && t[4] == 122;
    assert t[5] == 101 && t[6] == 110 && t[7] == 70 && t[8] == 88;
    assert t == [67, 105, 116, 105, 122, 101, 110, 70, 88];
  }

  /** The scan's meaning without a scan: without a `CitizenFX` the agent is unknown; otherwise the byte after
      the first one decides, a slash for the game's client, the end of the line for a bot. */
  lemma AgentSpec(p: Bytes, ua: UserAgent)
    ensures ua == AgentOf(p) <==>
            || ((forall i: nat :: !AgentAt(p, i)) && ua == UaUnknown)
            || (exists i: nat ::
                  && AgentAt(p, i) && (forall j: nat :: j < i ==> !AgentAt(p, j))
                  && ua == if p[i + 9] == '/' as int then UaValid
                           else if p[i + 9] == '\r' as int then UaBot
                           else UaUnknown)
  {
    var r := FindNeedle(p, 0);
    forall i: nat
      ensures NeedleAt(p, i) <==> AgentAt(p, i)
    {
      NeedleIsText(p, i);
    }
    if r.Some? {
      assert AgentAt(p, r.value);
      forall i: nat | AgentAt(p, i) && (forall j: nat :: j < i ==> !AgentAt(p, j))
        ensures i == r.value
      {
        assert !(i < r.value) && !(r.value < i);
      }
    }
  }

  /** Two payloads that agree on what is scanned have needles at the same places. */
  lemma NeedleAgree(p: Bytes, q: Bytes, i: nat)
    requires Head(p, UA_SCAN_BYTES) == Head(q, UA_SCAN_BYTES)
    ensures NeedleAt(p, i) <==> NeedleAt(q, i)
    ensures NeedleAt(p, i) ==> p[i + 9] == q[i + 9]
  {
    var h := Head(p, UA_SCAN_BYTES);
    if i + UA_NEEDLE_LEN <= |h| {
      assert p[i..i + 9] == h[i..i + 9] == q[i..i + 9];
      assert p[i + 9] == h[i + 9] == q[i + 9];
    }
  }

  /** Nothing past the first 512 bytes of a payload can change its class. */
  lemma ScanIsLocal(p: Bytes, q: Bytes)
    requires Head(p, 512) == Head(q, 512)
    ensures AgentOf(p) == AgentOf(q)
  {
    forall i: nat
      ensures NeedleAt(p, i) <==> NeedleAt(q, i)
      ensures NeedleAt(p, i) ==> p[i + 9] == q[i + 9]
    {
      NeedleAgree(p, q, i);
    }
    var r, s := FindNeedle(p, 0), FindNeedle(q, 0);
    if r.Some? {
      assert NeedleAt(q, r.value);
      assert !NeedleAt(q, s.value) || s.value == r.value by {
        assert !NeedleAt(p, s.value) || r.value <= s.value;
      }
    }
  }

  /** A needle seen stays seen, at the same place, whatever follows it in the stream. */
  lemma ScanIsStable(p: Bytes, more: Bytes)
    ensures FindNeedle(p, 0).Some? ==> AgentOf(p + more) == AgentOf(p)
    ensures AgentOf(p) != UaUnknown ==> AgentOf(p + more) == AgentOf(p)
  {
    var r := FindNeedle(p, 0);
    if r.Some? {
      var q := p + more;
      forall i: nat | i <= r.value
        ensures NeedleAt(q, i) <==> NeedleAt(p, i)
      {
        assert q[i..i + 9] == p[i..i + 9];
      }
      assert NeedleAt(q, r.value) && q[r.value + 9] == p[r.value + 9];
      var s := FindNeedle(q, 0);
      assert s.Some? && s.value == r.value;
    }
  }

  // ----- requests -----

  predicate MatchPostClient(p: Bytes) {
    |p| >= 12 && p[..12] == POST_CLIENT
  }

  /** The longer endpoint names are only compared when one byte past them is present. */
  predicate MatchGetEndpoint(p: Bytes) {
    && |p| >= 15
    && p[..5] == GET_ROOT
    && (|| p[5..14] == INFO_JSON
        || (|p| >= 18 && p[5..17] == DYNAMIC_JSON)
        || (|p| >= 18 && p[5..17] == PLAYERS_JSON))
  }

  function RequestOf(p: Bytes): Request {
    if MatchPostClient(p) then PostClient(AgentOf(p))
    else if MatchGetEndpoint(p) then GetInfo(AgentOf(p))
    else NoRequest
  }

  /** A connect request is what starts with its line. */
  lemma PostClientText(p: Bytes)
    ensures MatchPostClient(p) <==> Ascii("POST /client") <= p
  {
    var t := Ascii("POST /client");
    assert t[0] == 80 && t[1] == 79 && t[2] == 83 && t[3] == 84 && t[4] == 32 && t[5] == 47;
    assert t[6] == 99 && t[7] == 108 && t[8] == 105 && t[9] == 101 && t[10] == 110 && t[11] == 116;
    assert t == [80, 79, 83, 84, 32, 47, 99, 108, 105, 101, 110, 116];
    assert |p| >= 12 ==> (p[..12] == t <==> t <= p);
  }

  /** An info request is what starts with one of three lines and goes on after it. */
  predicate GetsInfo(p: Bytes) {
    || (Ascii("GET /info.json") <= p && |p| > 14)
    || (Ascii("GET /dynamic.json") <= p && |p| > 17)
    || (Ascii("GET /players.json") <= p && |p| > 17)
  }

  lemma GetEndpointText(p: Bytes)
    ensures MatchGetEndpoint(p) <==> GetsInfo(p)
  {
    hide Ascii;
    InfoLine(p);
    DynamicLine(p);
    PlayersLine(p);
  }

  /** No request is both. */
  lemma RequestsDiffer(p: Bytes)
    ensures !(MatchGetEndpoint(p) && MatchPostClient(p))
  {
    if |p| >= 15 && MatchPostClient(p) {
      assert p[0] == p[..12][0] == 80;
      assert p[0] == p[..5][0];
    }
  }

  lemma InfoLine(p: Bytes)
    ensures Ascii("GET /info.json") <= p <==> |p| >= 14 && p[..5] == GET_ROOT && p[5..14] == INFO_JSON
  {
    InfoJsonText();
    EndpointLine("info.json", INFO_JSON, p);
    assert "GET /" + "info.json" == "GET /info.json";
  }

  lemma DynamicLine(p: Bytes)
    ensures Ascii("GET /dynamic.json") <= p <==> |p| >= 17 && p[..5] == GET_ROOT && p[5..17] == DYNAMIC_JSON
  {
    DynamicJsonText();
    EndpointLine("dynamic.json", DYNAMIC_JSON, p);
    assert "GET /" + "dynamic.json" == "GET /dynamic.json";
  }

  lemma PlayersLine(p: Bytes)
    ensures Ascii("GET /players.json") <= p <==> |p| >= 17 && p[..5] == GET_ROOT && p[5..17] == PLAYERS_JSON
  {
    PlayersJsonText();
    EndpointLine("players.json", PLAYERS_JSON, p);
    assert "GET /" + "players.json" == "GET /players.json";
  }

  lemma EndpointLine(name: string, bytes: Bytes, p: Bytes)
    requires forall i :: 0 <= i < |name| ==> name[i] < 128 as char
    ensures forall i :: 0 <= i < |"GET /" + name| ==> ("GET /" + name)[i] < 128 as char
    ensures bytes == Ascii(name) ==>
              (Ascii("GET /" + name) <= p
               <==> |p| >= 5 + |name| && p[..5] == GET_ROOT && p[5..5 + |name|] == bytes)
  {
    var line := Ascii("GET /" + name);
    assert line[..5] == GET_ROOT by {
      assert line[0] == 71 && line[1] == 69 && line[2] == 84 && line[3] == 32 && line[4] == 47;
    }
    if bytes == Ascii(name) {
      assert line[5..] == bytes;
      assert line == GET_ROOT + bytes;
      if |p| >= |line| {
        assert p[..|line|] == p[..5] + p[5..|line|];
        if p[..|line|] == line {
          assert p[..5] == line[..5] && p[5..|line|] == line[5..];
        }
      }
    }
  }

  lemma InfoJsonText()
    ensures INFO_JSON == Ascii("info.json")
  {
    var t := Ascii("info.json");
    assert t[0] == 105 && t[1] == 110 && t[2] == 102 && t[3] == 111 && t[4] == 46;
    assert t[5] == 106 && t[6] == 115 && t[7] == 111 && t[8] == 110;
    assert t == [105, 110, 102, 111, 46, 106, 115, 111, 110];
  }

  lemma DynamicJsonText()
    ensures DYNAMIC_JSON == Ascii("dynamic.json")
  {
    var t := Ascii("dynamic.json");
    assert t[0] == 100 && t[1] == 121 && t[2] == 110 && t[3] == 97 && t[4] == 109 && t[5] == 105 && t[6] == 99;
    assert t[7] == 46 && t[8] == 106 && t[9] == 115 && t[10] == 111 && t[11] == 110;
    assert t == [100, 121, 110, 97, 109, 105, 99, 46, 106, 115, 111, 110];
  }

  lemma PlayersJsonText()
    ensures PLAYERS_JSON == Ascii("players.json")
  {
    var t := Ascii("players.json");
    assert t[0] == 112 && t[1] == 108 && t[2] == 97 && t[3] == 121 && t[4] == 101 && t[5] == 114 && t[6] == 115;
    assert t[7] == 46 && t[8] == 106 && t[9] == 115 && t[10] == 111 && t[11] == 110;
    assert t == [112, 108, 97, 121, 101, 114, 115, 46, 106, 115, 111, 110];
  }

  /** A valid agent carries `CitizenFX/` where the scan sees it. */
  lemma ValidAgentCarriesNeedle(p: Bytes) returns (i: nat)
    requires AgentOf(p) == UaValid
    ensures AgentAt(p, i) && p[i + 9] == '/' as int
  {
    i := FindNeedle(p, 0).value;
    NeedleIsText(p, i);
  }

  // ----- ENet -----

  /** An out-of-band query, which the ENet check does not apply to. */
  predicate IsOobPrefix(p: Bytes) {
    |p| >= 4 && p[0] == 0xff && p[1] == 0xff && p[2] == 0xff && p[3] == 0xff
  }

  /** The header check: compressed datagrams pass unread; otherwise the first command must fit,
      have a type from 1 to 12, and set no flag besides acknowledge and unsequenced. */
  predicate EnetLooksValid(p: Bytes) {
    && |p| >= 2
    && var header := Be16(p, 0);
       || (header / 0x4000) % 2 == 1
       || var at := if (header / 0x8000) % 2 == 1 then 4 else 2;
          && at + 4 <= |p|
          && 1 <= p[at] % 16 <= 12
          && (p[at] / 16) % 4 == 0
  }

  predicate Anomalous(p: Bytes) {
    !IsOobPrefix(p) && !EnetLooksValid(p)
  }
}
