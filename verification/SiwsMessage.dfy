/**
 * The message a Solana wallet signs to prove itself, in the EIP-4361 layout:
 * built, parsed strictly, and verified. The main results are that parsing and
 * building undo each other, that a message passing the line checks is already
 * canonical, and exactly which messages verify.
 */
module SiwsMessage {
  import opened Vocabulary

  datatype Network = DEVNET | MAINNET_BETA
  datatype Purpose = LINK_WALLET | TRANSFER_WALLET | CLAIM_ACCOUNT

  datatype Refusal =
    | MALFORMED_MESSAGE | UNSUPPORTED_VERSION | PURPOSE_MISMATCH | ADDRESS_MISMATCH | DOMAIN_MISMATCH | URI_MISMATCH
    | NETWORK_MISMATCH | STATEMENT_MISMATCH | NONCE_EXPIRED | BAD_SIGNATURE

  datatype Parsed<+T> = Accepted(value: T) | Refused(why: Refusal) {
    predicate IsFailure() { Refused? }
    function PropagateFailure<U>(): Parsed<U> requires Refused? { Refused(why) }
    function Extract(): T requires Accepted? { value }
  }

  datatype Fields = Fields(
    domain: string, address: string, statement: string, uri: string, chainId: string,
    nonce: string, issuedAt: string, expirationTime: string, purpose: Purpose)

  const HEADER_SUFFIX := " wants you to sign in with your Solana account:"
  const RESOURCE_PREFIX := "- chumbucket:purpose:"
  const SPEC_VERSION := "1"
  const MAX_LENGTH: nat := 4096

  /** The calendar, which is not modelled here: whether an instant so written exists, and which one it is. */
  datatype Calendar = Calendar(exists_: string -> bool, instant: string -> int)

  function PurposeName(p: Purpose): string {
    match p
    case LINK_WALLET => "link_wallet"
    case TRANSFER_WALLET => "transfer_wallet"
    case CLAIM_ACCOUNT => "claim_account"
  }

  function PurposeNamed(name: string): Option<Purpose> {
    if name == "link_wallet" then Some(LINK_WALLET)
    else if name == "transfer_wallet" then Some(TRANSFER_WALLET)
    else if name == "claim_account" then Some(CLAIM_ACCOUNT)
    else None
  }

  // ── lines ───────────────────────────────────────────────────────────────

  function Join(lines: seq<string>): string
    requires lines != []
  {
    if |lines| == 1 then lines[0] else lines[0] + "\n" + Join(lines[1..])
  }

  function Split(s: string): (lines: seq<string>)
    ensures lines != []
  {
    if s == "" then [""]
    else
      var rest := Split(s[1..]);
      if s[0] == '\n' then [""] + rest else [[s[0]] + rest[0]] + rest[1..]
  }

  lemma {:induction false} SplitLines(s: string)
    ensures forall i | 0 <= i < |Split(s)| :: '\n' !in Split(s)[i]
    ensures Join(Split(s)) == s
  {
    if s != "" {
      SplitLines(s[1..]);
      var rest := Split(s[1..]);
      assert s == [s[0]] + s[1..];
      if s[0] == '\n' {
        assert Split(s)[1..] == rest;
      } else {
        assert Split(s)[1..] == rest[1..];
      }
    }
  }

  lemma {:induction false} SplitOne(line: string)
    requires '\n' !in line
    ensures Split(line) == [line]
  {
    if line != "" {
      assert line == [line[0]] + line[1..];
      assert line[0] in line;
      SplitOne(line[1..]);
    }
  }

  lemma {:induction false} SplitFirst(line: string, rest: string)
    requires '\n' !in line
    ensures Split(line + "\n" + rest) == [line] + Split(rest)
  {
    var s := line + "\n" + rest;
    if line == "" {
      assert s[1..] == rest;
    } else {
      assert line == [line[0]] + line[1..];
      assert line[0] in line && s[0] == line[0];
      assert s[1..] == line[1..] + "\n" + rest;
      SplitFirst(line[1..], rest);
      assert ([line[1..]] + Split(rest))[1..] == Split(rest);
    }
  }

  lemma {:induction false} SplitJoined(lines: seq<string>)
    requires lines != [] && forall i | 0 <= i < |lines| :: '\n' !in lines[i]
    ensures Split(Join(lines)) == lines
  {
    if |lines| == 1 {
      SplitOne(lines[0]);
    } else {
      SplitJoined(lines[1..]);
      SplitFirst(lines[0], Join(lines[1..]));
      assert lines == [lines[0]] + lines[1..];
    }
  }

  // ── the message ─────────────────────────────────────────────────────────

  function BuildLines(f: Fields): (lines: seq<string>)
    ensures |lines| == 13
  {
    [f.domain + HEADER_SUFFIX,
     f.address,
     "",
     f.statement,
     "",
     "URI: " + f.uri,
     "Version: " + SPEC_VERSION,
     "Chain ID: " + f.chainId,
     "Nonce: " + f.nonce,
     "Issued At: " + f.issuedAt,
     "Expiration Time: " + f.expirationTime,
     "Resources:",
     RESOURCE_PREFIX + PurposeName(f.purpose)]
  }

  function Build(f: Fields): string { Join(BuildLines(f)) }

  predicate HasSpace(s: string) { exists i :: 0 <= i < |s| && IsSpace(s[i]) }

  predicate IsDigit(c: char) { '0' <= c <= '9' }

  predicate IsHex64(s: string) { |s| == 64 && forall i | 0 <= i < |s| :: IsDigit(s[i]) || 'a' <= s[i] <= 'f' }

  /** dddd-dd-ddTdd:dd:dd.dddZ */
  predicate IsoShape(s: string) {
    && |s| == 24
    && s[4] == '-' && s[7] == '-' && s[10] == 'T' && s[13] == ':' && s[16] == ':' && s[19] == '.' && s[23] == 'Z'
    && forall i | 0 <= i < 23 && i != 4 && i != 7 && i != 10 && i != 13 && i != 16 && i != 19 :: IsDigit(s[i])
  }

  predicate IsIsoUtcMs(c: Calendar, s: string) { IsoShape(s) && c.exists_(s) }

  predicate EndsWith(s: string, suffix: string) { |s| >= |suffix| && s[|s| - |suffix|..] == suffix }

  /** What follows the prefix on a line that must have it. */
  function RequireLine(line: string, prefix: string): Parsed<string> {
    if prefix <= line then Accepted(line[|prefix|..]) else Refused(MALFORMED_MESSAGE)
  }

  /** The checks made line by line. */
  function ParseLines(c: Calendar, lines: seq<string>): Parsed<Fields>
    requires |lines| == 13
  {
    if !EndsWith(lines[0], HEADER_SUFFIX) then Refused(MALFORMED_MESSAGE)
    else
      var domain := lines[0][..|lines[0]| - |HEADER_SUFFIX|];
      if domain == "" || HasSpace(domain) then Refused(MALFORMED_MESSAGE)
      else if lines[1] == "" || HasSpace(lines[1]) then Refused(MALFORMED_MESSAGE)
      else if lines[2] != "" || lines[4] != "" then Refused(MALFORMED_MESSAGE)
      else if lines[3] == "" then Refused(MALFORMED_MESSAGE)
      else
        var uri :- RequireLine(lines[5], "URI: ");
        var version :- RequireLine(lines[6], "Version: ");
        if version != SPEC_VERSION then Refused(UNSUPPORTED_VERSION)
        else
          var chainId :- RequireLine(lines[7], "Chain ID: ");
          var nonce :- RequireLine(lines[8], "Nonce: ");
          if !IsHex64(nonce) then Refused(MALFORMED_MESSAGE)
          else
            var issuedAt :- RequireLine(lines[9], "Issued At: ");
            var expirationTime :- RequireLine(lines[10], "Expiration Time: ");
            if !IsIsoUtcMs(c, issuedAt) || !IsIsoUtcMs(c, expirationTime) then Refused(MALFORMED_MESSAGE)
            else if lines[11] != "Resources:" then Refused(MALFORMED_MESSAGE)
            else
              var purposeRaw :- RequireLine(lines[12], RESOURCE_PREFIX);
              var purpose := PurposeNamed(purposeRaw);
              if purpose.None? then Refused(PURPOSE_MISMATCH)
              else Accepted(Fields(domain, lines[1], lines[3], uri, chainId, nonce, issuedAt, expirationTime,
                  purpose.value))
  }

  function Parse(c: Calendar, message: string): Parsed<Fields> {
    if message == "" || |message| > MAX_LENGTH then Refused(MALFORMED_MESSAGE)
    else
      var lines := Split(message);
      if |lines| != 13 then Refused(MALFORMED_MESSAGE)
      else
        var fields :- ParseLines(c, lines);
        if Build(fields) != message then Refused(MALFORMED_MESSAGE) else Accepted(fields)
  }

  // ── parse and build ─────────────────────────────────────────────────────

  predicate OneLine(s: string) { '\n' !in s }

  /** Fields a message can carry: none spans lines, and each is in its own form. */
  ghost predicate WellFormed(c: Calendar, f: Fields) {
    && f.domain != "" && !HasSpace(f.domain) && f.address != "" && !HasSpace(f.address)
    && f.statement != "" && OneLine(f.statement) && OneLine(f.uri) && OneLine(f.chainId)
    && IsHex64(f.nonce) && IsIsoUtcMs(c, f.issuedAt) && IsIsoUtcMs(c, f.expirationTime)
  }

  lemma PurposeRoundTrips(p: Purpose, name: string)
    ensures PurposeNamed(PurposeName(p)) == Some(p)
    ensures PurposeNamed(name).Some? ==> PurposeName(PurposeNamed(name).value) == name
  {
  }

  lemma PrefixRoundTrips(prefix: string, rest: string, line: string)
    ensures RequireLine(prefix + rest, prefix) == Accepted(rest)
    ensures RequireLine(line, prefix).Accepted? ==> prefix + RequireLine(line, prefix).value == line
  {
    assert (prefix + rest)[|prefix|..] == rest;
    assert prefix <= prefix + rest;
  }

  lemma SuffixRoundTrips(rest: string, suffix: string, line: string)
    ensures EndsWith(rest + suffix, suffix) && (rest + suffix)[..|rest + suffix| - |suffix|] == rest
    ensures EndsWith(line, suffix) ==> line[..|line| - |suffix|] + suffix == line
  {
    assert (rest + suffix)[|rest + suffix| - |suffix|..] == suffix;
  }

  /** Lines that pass every check are the lines of the fields they carry. */
  lemma LinesAreCanonical(c: Calendar, lines: seq<string>)
    requires |lines| == 13 && ParseLines(c, lines).Accepted?
    ensures BuildLines(ParseLines(c, lines).value) == lines
  {
    hide HasSpace, IsHex64, IsIsoUtcMs, EndsWith, PurposeNamed, PurposeName, RequireLine;
    var f := ParseLines(c, lines).value;
    SuffixRoundTrips("", HEADER_SUFFIX, lines[0]);
    PrefixRoundTrips("URI: ", "", lines[5]);
    PrefixRoundTrips("Version: ", "", lines[6]);
    PrefixRoundTrips("Chain ID: ", "", lines[7]);
    PrefixRoundTrips("Nonce: ", "", lines[8]);
    PrefixRoundTrips("Issued At: ", "", lines[9]);
    PrefixRoundTrips("Expiration Time: ", "", lines[10]);
    PrefixRoundTrips(RESOURCE_PREFIX, "", lines[12]);
    PurposeRoundTrips(f.purpose, RequireLine(lines[12], RESOURCE_PREFIX).value);
    assert BuildLines(f)[0] == lines[0] && BuildLines(f)[12] == lines[12];
  }

  /**
   * The checks made line by line leave the final re-serialisation nothing to
   * find: whatever passes them is already, byte for byte, what would be built.
   */
  lemma LineChecksSuffice(c: Calendar, message: string)
    requires |Split(message)| == 13 && ParseLines(c, Split(message)).Accepted?
    ensures Build(ParseLines(c, Split(message)).value) == message
  {
    hide ParseLines, BuildLines, Split, Join;
    LinesAreCanonical(c, Split(message));
    SplitLines(message);
  }

  lemma WellFormedLinesParse(c: Calendar, f: Fields)
    requires WellFormed(c, f)
    ensures ParseLines(c, BuildLines(f)) == Accepted(f)
  {
    hide HasSpace, IsHex64, IsIsoUtcMs, EndsWith, PurposeNamed, PurposeName, RequireLine, OneLine;
    SuffixRoundTrips(f.domain, HEADER_SUFFIX, "");
    PrefixRoundTrips("URI: ", f.uri, "");
    PrefixRoundTrips("Version: ", SPEC_VERSION, "");
    PrefixRoundTrips("Chain ID: ", f.chainId, "");
    PrefixRoundTrips("Nonce: ", f.nonce, "");
    PrefixRoundTrips("Issued At: ", f.issuedAt, "");
    PrefixRoundTrips("Expiration Time: ", f.expirationTime, "");
    PrefixRoundTrips(RESOURCE_PREFIX, PurposeName(f.purpose), "");
    PurposeRoundTrips(f.purpose, "");
  }

  lemma PlainIsOneLine(c: Calendar, s: string)
    ensures !HasSpace(s) || IsHex64(s) || IsIsoUtcMs(c, s) ==> OneLine(s)
  {
    if i :| 0 <= i < |s| && s[i] == '\n' { assert IsSpace(s[i]); }
  }

  /** No line of a well-formed message holds a line break. */
  lemma WellFormedLines(c: Calendar, f: Fields)
    requires WellFormed(c, f)
    ensures forall i | 0 <= i < 13 :: '\n' !in BuildLines(f)[i]
  {
    hide HasSpace, IsHex64, IsIsoUtcMs;
    PlainIsOneLine(c, f.domain);
    PlainIsOneLine(c, f.address);
    PlainIsOneLine(c, f.nonce);
    PlainIsOneLine(c, f.issuedAt);
    PlainIsOneLine(c, f.expirationTime);
    hide OneLine;
    Labelled(f.domain, HEADER_SUFFIX);
    Labelled("URI: ", f.uri);
    Labelled("Version: ", SPEC_VERSION);
    Labelled("Chain ID: ", f.chainId);
    Labelled("Nonce: ", f.nonce);
    Labelled("Issued At: ", f.issuedAt);
    Labelled("Expiration Time: ", f.expirationTime);
    Labelled(RESOURCE_PREFIX, PurposeName(f.purpose));
    FixedHeader();
    FixedLabels();
    FixedMoreLabels();
    FixedPurpose(f.purpose);
    forall i | 0 <= i < 13 ensures OneLine(BuildLines(f)[i]) {
    }
    ByLine(BuildLines(f));
  }

  lemma FixedHeader()
    ensures OneLine(HEADER_SUFFIX)
  {
    var start, end := " wants you to sign in", " with your Solana account:";
    assert OneLine(start) && OneLine(end);
    Labelled(start, end);
    assert HEADER_SUFFIX == start + end;
  }

  lemma FixedLabels()
    ensures OneLine("URI: ") && OneLine("Version: ") && OneLine(SPEC_VERSION) && OneLine("Chain ID: ")
        && OneLine("Nonce: ") && OneLine("")
  {
  }

  lemma FixedMoreLabels()
    ensures OneLine("Issued At: ") && OneLine("Expiration Time: ") && OneLine("Resources:")
  {
  }

  lemma FixedPurpose(p: Purpose)
    ensures OneLine(RESOURCE_PREFIX) && OneLine(PurposeName(p))
  {
  }

  lemma Labelled(tag: string, text: string)
    ensures OneLine(tag) && OneLine(text) ==> OneLine(tag + text)
  {
  }

  lemma ByLine(lines: seq<string>)
    requires forall i | 0 <= i < |lines| :: OneLine(lines[i])
    ensures forall i | 0 <= i < |lines| :: '\n' !in lines[i]
  {
  }

  lemma ParsedIsWellFormed(c: Calendar, lines: seq<string>)
    requires |lines| == 13 && ParseLines(c, lines).Accepted? && forall i | 0 <= i < 13 :: '\n' !in lines[i]
    ensures WellFormed(c, ParseLines(c, lines).value)
  {
    hide HasSpace, IsHex64, IsIsoUtcMs, EndsWith, PurposeNamed, PurposeName;
    assert lines[3] in lines && lines[5] in lines && lines[7] in lines;
  }

  /**
   * What well-formed means, character by character: a domain and an address without white
   * space, a statement, no line break in any field, a nonce of 64 lower-case hexadecimal
   * digits, and two existing instants to the millisecond, in UTC.
   */
  lemma WellFormedSays(c: Calendar, f: Fields)
    ensures WellFormed(c, f) <==>
              && |f.domain| > 0 && |f.address| > 0 && |f.statement| > 0
              && (forall x | x in f.domain || x in f.address :: !IsSpace(x))
              && (forall x | x in f.statement || x in f.uri || x in f.chainId :: x != '\n')
              && |f.nonce| == 64 && (forall x | x in f.nonce :: '0' <= x <= '9' || 'a' <= x <= 'f')
              && IsInstant(c, f.issuedAt) && IsInstant(c, f.expirationTime)
  {
    hide IsSpace, IsInstant, IsIsoUtcMs, IsDigit;
    InstantsAre(c, f.issuedAt);
    InstantsAre(c, f.expirationTime);
    NoSpaceIn(f.domain);
    NoSpaceIn(f.address);
    HexIs(f.nonce);
    hide HasSpace, IsHex64;
  }

  /** YYYY-MM-DDTHH:MM:SS.mmmZ, and on the calendar. */
  ghost predicate IsInstant(c: Calendar, s: string) {
    && |s| == 24 && c.exists_(s)
    && s[4] == s[7] == '-' && s[10] == 'T' && s[13] == s[16] == ':' && s[19] == '.' && s[23] == 'Z'
    && forall i | 0 <= i < 23 && i !in {4, 7, 10, 13, 16, 19} :: '0' <= s[i] <= '9'
  }

  lemma InstantsAre(c: Calendar, s: string)
    ensures IsIsoUtcMs(c, s) <==> IsInstant(c, s)
  {
  }

  lemma NoSpaceIn(s: string)
    ensures HasSpace(s) <==> exists x :: x in s && IsSpace(x)
  {
    hide IsSpace;
    if x :| x in s && IsSpace(x) {
      var i :| 0 <= i < |s| && s[i] == x;
      assert IsSpace(s[i]);
    }
  }

  lemma HexIs(s: string)
    ensures IsHex64(s) <==> |s| == 64 && forall x | x in s :: '0' <= x <= '9' || 'a' <= x <= 'f'
  {
    if |s| == 64 && forall x | x in s :: '0' <= x <= '9' || 'a' <= x <= 'f' {
      assert forall i | 0 <= i < |s| :: s[i] in s;
    }
  }

  /**
   * Parsing and building undo each other: a message parses to these fields exactly when
   * they are well formed, it is their message, and it is not too long.
   */
  lemma ParseAndBuildUndoEachOther(c: Calendar, f: Fields, message: string)
    ensures Parse(c, message) == Accepted(f) <==> WellFormed(c, f) && message == Build(f) && |message| <= 4096
  {
    hide ParseLines, BuildLines, Split, Join, WellFormed;
    if Parse(c, message) == Accepted(f) {
      SplitLines(message);
      ParsedIsWellFormed(c, Split(message));
    }
    if WellFormed(c, f) && message == Build(f) {
      WellFormedLines(c, f);
      SplitJoined(BuildLines(f));
      WellFormedLinesParse(c, f);
      MessageNotEmpty(f);
    }
  }

  lemma MessageNotEmpty(f: Fields)
    ensures Build(f) != ""
  {
  }

  /** Two well-formed sets of fields never share a message. */
  lemma BuildIsInjective(c: Calendar, f: Fields, g: Fields)
    requires WellFormed(c, f) && WellFormed(c, g) && Build(f) == Build(g)
    ensures f == g
  {
    hide ParseLines, BuildLines, Split, Join, WellFormed;
    WellFormedLines(c, f);
    WellFormedLines(c, g);
    SplitJoined(BuildLines(f));
    SplitJoined(BuildLines(g));
    WellFormedLinesParse(c, f);
    WellFormedLinesParse(c, g);
  }

  // ── verifying a proof ───────────────────────────────────────────────────

  function ChainId(n: Network): string {
    if n == DEVNET then "solana:EtWTRABZaYq6iMfeYKouRu166VU2xqa1" else "solana:5eykt4UsFv8P8NJdTREpY1vzqKqZKvdp"
  }

  function StatementFor(p: Purpose): string {
    match p
    case LINK_WALLET =>
      "Link this Solana wallet to your Chumbucket account. This request does not authorise any transaction, transfer or spend."
    case TRANSFER_WALLET =>
      "Move this Solana wallet to this Chumbucket account. This request does not authorise any transaction, transfer or spend."
    case CLAIM_ACCOUNT =>
      "Connect your signed-in account to your existing Chumbucket profile. This request does not create a profile or authorise any transaction, transfer or spend."
  }

  datatype Expectation = Expectation(
    allowedDomains: seq<string>, allowedUris: seq<string>, network: Network, purpose: Purpose, address: string,
        now: int)

  /** `signed(address, message, signature)`: the ed25519 check, which is not part of this model. */
  function VerifySiwsProof(
      c: Calendar, signed: (string, string, string) -> bool, message: string, signature: string,
          expect_: Expectation): Parsed<Fields> {
    var f :- Parse(c, message);
    if f.purpose != expect_.purpose then Refused(PURPOSE_MISMATCH)
    else if f.address != expect_.address then Refused(ADDRESS_MISMATCH)
    else if f.domain !in expect_.allowedDomains then Refused(DOMAIN_MISMATCH)
    else if f.uri !in expect_.allowedUris then Refused(URI_MISMATCH)
    else if f.chainId != ChainId(expect_.network) then Refused(NETWORK_MISMATCH)
    else if f.statement != StatementFor(expect_.purpose) then Refused(STATEMENT_MISMATCH)
    else if c.instant(f.expirationTime) <= expect_.now then Refused(NONCE_EXPIRED)
    else if c.instant(f.issuedAt) > c.instant(f.expirationTime) then Refused(MALFORMED_MESSAGE)
    else if !signed(f.address, message, signature) then Refused(BAD_SIGNATURE)
    else Accepted(f)
  }

  /** The message the server writes for this address, purpose and network, between these instants. */
  function Expected(e: Expectation, domain: string, uri: string, nonce: string, issuedAt: string,
      expirationTime: string): Fields {
    Fields(domain, e.address, StatementFor(e.purpose), uri, ChainId(e.network), nonce, issuedAt, expirationTime,
        e.purpose)
  }

  /**
   * Exactly which proofs verify: the message is, byte for byte, the one the
   * server would write for the claimed address, purpose and network with an
   * allowed domain and URI, it is in date, and the address signed it. A client
   * has nothing else to choose but the nonce and the two instants.
   */
  lemma VerifiesExactlyTheServersMessages(
      c: Calendar, signed: (string, string, string) -> bool, message: string, signature: string, e: Expectation,
          f: Fields)
    ensures VerifySiwsProof(c, signed, message, signature, e) == Accepted(f) <==>
              && WellFormed(c, f) && |message| <= 4096 && message == Build(f)
              && f == Expected(e, f.domain, f.uri, f.nonce, f.issuedAt, f.expirationTime)
              && f.domain in e.allowedDomains && f.uri in e.allowedUris
              && e.now < c.instant(f.expirationTime) && c.instant(f.issuedAt) <= c.instant(f.expirationTime)
              && signed(e.address, message, signature)
  {
    hide Parse, Build, WellFormed, StatementFor, ChainId;
    ParseAndBuildUndoEachOther(c, f, message);
    if Parse(c, message).Accepted? { ParseAndBuildUndoEachOther(c, Parse(c, message).value, message); }
  }
}
