// request.py, lines 20-73 and 110-149, and the second producer of guest input in
// run.py, lines 34-53: what a proof request must contain, and the guest stdin and
// claim journal computed from it.
module Requests {
  import opened Options
  import opened Sequences
  import opened Bytes
  import opened JsonValues
  import opened Libraries
  import opened GoalScan

  const MAX_REQUEST: nat := 4 * 1024 * 1024
  const MAX_SOURCE: nat := 512 * 1024
  const REQUEST_FORMAT := "oncm-proof-request-v1"
  const FOUNDATION_FILE := "fixtures/foundation.ndjson"

  const TOP_KEYS := {"format", "requestNonce", "profile", "profileId", "imageId",
                     "goalHash", "outcome", "source", "goal", "export"}

  const PART_KEYS := {"base64", "sha256", "bytes"}
  const SOURCE_KEYS := {"text", "sha256"}

  // A pinned profile directory: profile.json and the files beside it.
  datatype Profile = Profile(
    profileId: string,
    imageId: string,
    foundationSha256: string,
    files: map<string, string>,
    assets: map<string, bytes>)

  datatype Body = Body(
    requestNonce: string,
    profile: string,
    profileId: string,
    imageId: string,
    goalHash: string,
    outcome: nat,
    sourceSha256: string,
    goalSha256: string,
    exportSha256: string)

  datatype Request = Request(body: Body, digest: string, goal: bytes, exported: bytes, wire: bytes, journal: bytes)

  // ---- Field checks ----

  predicate ExactKeys(j: Json, keys: set<string>) {
    j.Obj? && j.fields.Keys == keys
  }

  function Text(j: Json): Option<string> {
    if j.Str? then Some(j.s) else None
  }

  function HexValue(j: Json): Option<string> {
    var s :- Text(j);
    if LowerHex(s, 64) then Some(s) else None
  }

  predicate Prefixed(s: string) {
    |s| == 66 && s[..2] == "0x" && LowerHex(s[2..], 64)
  }

  function PrefixedHexValue(j: Json): Option<string> {
    var s :- Text(j);
    if Prefixed(s) then Some(s) else None
  }

  // A base64 part, with the digest it declares.
  function DecodedPart(lib: Library, part: Json): (r: Option<(bytes, string)>)
    ensures r.Some? ==> 0 < |r.value.0| <= MAX_EXPORT && HexSha(lib, r.value.0) == r.value.1
  {
    var _ :- Require(ExactKeys(part, PART_KEYS));
    var size := part.fields["bytes"];
    var _ :- Require(size.Int? && 0 < size.n <= MAX_EXPORT);
    var text :- Text(part.fields["base64"]);
    var _ :- Require(|text| <= 4 * ((MAX_EXPORT + 2) / 3));
    var raw :- lib.fromBase64(text);
    var _ :- Require(lib.toBase64(raw) == text);
    var _ :- Require(|raw| == size.n);
    var digest :- HexValue(part.fields["sha256"]);
    var _ :- Require(HexSha(lib, raw) == digest);
    Some((raw, digest))
  }

  function SourceDigest(lib: Library, source: Json): Option<string> {
    var _ :- Require(ExactKeys(source, SOURCE_KEYS));
    var text :- Text(source.fields["text"]);
    var raw :- lib.utf8(text);
    var _ :- Require(0 < |raw| <= MAX_SOURCE);
    var digest :- HexValue(source.fields["sha256"]);
    var _ :- Require(HexSha(lib, raw) == digest);
    Some(digest)
  }

  predicate PinnedFiles(lib: Library, profile: Profile) {
    forall name | name in profile.files ::
      name in profile.assets && HexSha(lib, profile.assets[name]) == profile.files[name]
  }

  // ---- Guest input and journal ----

  const DOMAIN := "ONCM_LEAN_CLAIM_V1"

  function Words(data: bytes): (w: bytes)
    ensures |w| == 4 * |data|
  {
    if data == [] then [] else Little(data[0], 4) + Words(data[1..])
  }

  // Three little-endian words, then each byte of the export as a word.
  function Wire(goalLength: nat, outcome: nat, exported: bytes): bytes {
    Little(goalLength, 4) + Little(outcome, 4) + Little(|exported|, 4) + Words(exported)
  }

  // The claim the host expects, from the two hashes' hexadecimal text.
  function HostJournal(lib: Library, hashes: string, outcome: nat): Option<bytes> {
    var middle :- Unhex(hashes);
    Some(lib.sha256(Ascii(DOMAIN)) + middle + Big(outcome, 32))
  }

  // ---- The request ----

  // The checks that precede the packages; the rest of the body is filled in later.
  function Header(lib: Library, profiles: map<string, Profile>, top: Json): (r: Option<Body>)
    ensures r.Some? ==>
              && ExactKeys(top, TOP_KEYS)
              && r.value.profile in profiles && r.value.outcome <= 2
              && r.value.profileId == profiles[r.value.profile].profileId
              && Prefixed(r.value.profileId)
              && r.value.imageId == profiles[r.value.profile].imageId && Prefixed(r.value.imageId)
              && PinnedFiles(lib, profiles[r.value.profile])
              && r.value.goalHash == r.value.goalSha256 == r.value.exportSha256 == ""
  {
    var _ :- Require(ExactKeys(top, TOP_KEYS));
    var _ :- Require(top.fields["format"] == Str(REQUEST_FORMAT));
    var nonce :- Text(top.fields["requestNonce"]);
    var _ :- Require(lib.canonicalUuid(nonce));
    var name :- Text(top.fields["profile"]);
    var _ :- Require(name in {"perf05", "v3"} && name in profiles);
    var outcome := top.fields["outcome"];
    var _ :- Require(outcome.Int? && 0 <= outcome.n <= 2);
    var profileId :- PrefixedHexValue(top.fields["profileId"]);
    var imageId :- PrefixedHexValue(top.fields["imageId"]);
    var _ :- Require(profileId == profiles[name].profileId && imageId == profiles[name].imageId);
    var _ :- Require(PinnedFiles(lib, profiles[name]));
    var sourceSha :- SourceDigest(lib, top.fields["source"]);
    Some(Body(nonce, name, profileId, imageId, "", outcome.n, sourceSha, "", ""))
  }

  // The binding of goal and export to each other, the foundation and the hash.
  predicate Bound(lib: Library, profile: Profile, outcome: nat, goalHash: string, goal: bytes, exported: bytes) {
    && "0x" + HexSha(lib, goal) == goalHash
    && FOUNDATION_FILE in profile.assets
    && HexSha(lib, profile.assets[FOUNDATION_FILE]) == profile.foundationSha256
    && profile.assets[FOUNDATION_FILE] <= goal
    && goal <= exported
    && Boundary(lib, exported) == Some(|goal|)
    && (outcome == 0 ==> goal == exported)
  }

  function ValidateRequest(lib: Library, profiles: map<string, Profile>, raw: bytes): Option<Request> {
    var top :- StrictJson(lib, raw, MAX_REQUEST);
    var head :- Header(lib, profiles, top);
    var (goal, goalSha) :- DecodedPart(lib, top.fields["goal"]);
    var (exported, exportSha) :- DecodedPart(lib, top.fields["export"]);
    var goalHash :- PrefixedHexValue(top.fields["goalHash"]);
    var _ :- Require(Bound(lib, profiles[head.profile], head.outcome, goalHash, goal, exported));
    var journal :- HostJournal(lib, goalHash[2..] + head.profileId[2..], head.outcome);
    var body := head.(goalHash := goalHash, goalSha256 := goalSha, exportSha256 := exportSha);
    Some(Request(body, HexSha(lib, raw), goal, exported, Wire(|goal|, head.outcome, exported), journal))
  }

  function WordList(data: bytes): (words: seq<bytes>)
    ensures |words| == |data|
  {
    seq(|data|, i requires 0 <= i < |data| => Little(data[i], 4))
  }

  // run.py's inputs(): the same data from a profile's pinned fixtures, joined from a list
  // of words.
  function FixtureInputs(lib: Library, profile: Profile, goal: bytes, proof: bytes, registration: bool,
                         fixtureOutcome: nat, fixtureGoalHash: string): Option<(nat, bytes, bytes)>
  {
    var _ :- Require(PinnedFiles(lib, profile));
    var exported := if registration then goal else proof;
    var _ :- Require(goal <= exported);
    var goalHash := HexSha(lib, goal);
    var _ :- Require("0x" + goalHash == fixtureGoalHash);
    var _ :- Require(|profile.profileId| >= 2);
    var outcome := if registration then 0 else fixtureOutcome;
    var middle :- Unhex(goalHash + profile.profileId[2..]);
    var wire := Flatten([Little(|goal|, 4), Little(outcome, 4), Little(|exported|, 4)]) + Flatten(WordList(exported));
    Some((outcome, wire, Flatten([lib.sha256(Ascii(DOMAIN)), middle, Big(outcome, 32)])))
  }

  lemma {:induction false} JoinedWords(data: bytes)
    ensures Flatten(WordList(data)) == Words(data)
  {
    if data != [] {
      JoinedWords(data[1..]);
      assert WordList(data)[1..] == WordList(data[1..]);
    }
  }

  lemma JoinedThree(a: bytes, b: bytes, c: bytes)
    ensures Flatten([a, b, c]) == a + b + c
  {
    assert [a, b, c][1..] == [b, c] && [b, c][1..] == [c] && [c][1..] == [];
    assert Flatten([c]) == c && Flatten([b, c]) == b + c;
    Regroup(a, b, c);
  }

  // ---- What acceptance means ----

  // The goal is the export's prefix up to its one definition of Oncm.goal, it
  // starts with the pinned foundation, and its digest is the committed one.
  lemma AcceptedRequest(lib: Library, profiles: map<string, Profile>, raw: bytes)
    requires ValidateRequest(lib, profiles, raw).Some?
    ensures var r := ValidateRequest(lib, profiles, raw).value;
            && r.body.profile in profiles && r.body.outcome <= 2
            && 0 < |r.goal| && |r.exported| <= MAX_EXPORT
            && var p := profiles[r.body.profile];
               && Bound(lib, p, r.body.outcome, r.body.goalHash, r.goal, r.exported)
               && PinnedFiles(lib, p)
               && r.body.profileId == p.profileId && Prefixed(p.profileId)
               && r.body.imageId == p.imageId && Prefixed(p.imageId)
               && r.digest == HexSha(lib, raw)
               && r.wire == Wire(|r.goal|, r.body.outcome, r.exported)
               && |r.body.goalHash| >= 2
               && HostJournal(lib, r.body.goalHash[2..] + p.profileId[2..], r.body.outcome) == Some(r.journal)
  {
  }

  // What a journal claims: the domain, the goal, the profile and the outcome, a word each.
  ghost predicate Claims(lib: Library, r: Request, journal: bytes) {
    && |journal| == 128
    && journal[..32] == lib.sha256(Ascii("ONCM_LEAN_CLAIM_V1"))
    && journal[32..64] == lib.sha256(r.goal)
    && "0x" + Hex(journal[64..96]) == r.body.profileId
    && FromBig(journal[96..]) == r.body.outcome
  }

  lemma FourWords(a: bytes, b: bytes, c: bytes, d: bytes)
    requires |a| == |b| == |c| == |d| == 32
    ensures var all := a + (b + c) + d;
            |all| == 128 && all[..32] == a && all[32..64] == b && all[64..96] == c && all[96..] == d
  {
  }

  // The journal of an accepted request claims what the request says.
  lemma JournalClaims(lib: Library, profiles: map<string, Profile>, raw: bytes)
    requires ValidateRequest(lib, profiles, raw).Some?
    ensures Claims(lib, ValidateRequest(lib, profiles, raw).value, ValidateRequest(lib, profiles, raw).value.journal)
  {
    AcceptedRequest(lib, profiles, raw);
    var r := ValidateRequest(lib, profiles, raw).value;
    var id := r.body.profileId;
    var goalHash: bytes, domain: bytes := lib.sha256(r.goal), lib.sha256(Ascii(DOMAIN));
    assert r.body.goalHash[2..] == Hex(goalHash);
    HexThen(goalHash, id[2..]);
    UnhexExact(id[2..], 32);
    var profile := Unhex(id[2..]).value;
    assert id == "0x" + id[2..];
    FourWords(domain, goalHash, profile, Big(r.body.outcome, 32));
    BigDecodes(r.body.outcome, 32);
  }

  lemma GoalOfPrefix(lib: Library, goal1: bytes, export1: bytes, goal2: bytes, export2: bytes)
    requires goal1 <= export1 <= export2 && goal2 <= export2
    requires Boundary(lib, export1) == Some(|goal1|) && Boundary(lib, export2) == Some(|goal2|)
    ensures goal1 == goal2
  {
    PrefixBoundary(lib, export2, |export1|);
    assert export2[..|export1|] == export1;
    assert |goal1| == |goal2|;
    assert goal1 == export1[..|goal1|] && goal2 == export2[..|goal2|];
  }

  // Whatever else two accepted requests say, and whether or not they come from the
  // same profile, if one's export extends the other's then they commit to the same
  // goal. So the goal and its hash are a function of the export.
  lemma GoalOfExport(lib: Library, p1: map<string, Profile>, raw1: bytes, p2: map<string, Profile>, raw2: bytes)
    requires ValidateRequest(lib, p1, raw1).Some? && ValidateRequest(lib, p2, raw2).Some?
    requires ValidateRequest(lib, p1, raw1).value.exported <= ValidateRequest(lib, p2, raw2).value.exported
    ensures var r, s := ValidateRequest(lib, p1, raw1).value, ValidateRequest(lib, p2, raw2).value;
            r.goal == s.goal && r.body.goalHash == s.body.goalHash
  {
    AcceptedRequest(lib, p1, raw1);
    AcceptedRequest(lib, p2, raw2);
    var r, s := ValidateRequest(lib, p1, raw1).value, ValidateRequest(lib, p2, raw2).value;
    GoalOfPrefix(lib, r.goal, r.exported, s.goal, s.exported);
  }

  lemma SameInputs(lib: Library, profile: Profile, r: Request, proof: bytes, registration: bool, fixtureOutcome: nat,
                   fixtureGoalHash: string)
    requires PinnedFiles(lib, profile) && |profile.profileId| == 66
    requires r.body.goalHash == "0x" + HexSha(lib, r.goal) && r.goal <= r.exported
    requires r.wire == Wire(|r.goal|, r.body.outcome, r.exported)
    requires HostJournal(lib, r.body.goalHash[2..] + profile.profileId[2..], r.body.outcome) == Some(r.journal)
    requires r.exported == (if registration then r.goal else proof)
    requires r.body.outcome == (if registration then 0 else fixtureOutcome)
    ensures FixtureInputs(lib, profile, r.goal, proof, registration, fixtureOutcome, fixtureGoalHash)
         == if fixtureGoalHash == r.body.goalHash
            then Some((r.body.outcome, r.wire, r.journal)) else None
  {
    assert r.body.goalHash[2..] == HexSha(lib, r.goal);
    JoinedWords(r.exported);
    JoinedThree(Little(|r.goal|, 4), Little(r.body.outcome, 4), Little(|r.exported|, 4));
    var middle := Unhex(HexSha(lib, r.goal) + profile.profileId[2..]).value;
    JoinedThree(lib.sha256(Ascii(DOMAIN)), middle, Big(r.body.outcome, 32));
  }

  // The fixture path and the request path produce the same guest input and the
  // same journal for the same goal, export and outcome under one profile.
  lemma ProducersAgree(lib: Library, profiles: map<string, Profile>, raw: bytes, proof: bytes, registration: bool,
                       fixtureOutcome: nat, fixtureGoalHash: string)
    requires ValidateRequest(lib, profiles, raw).Some?
    requires var r := ValidateRequest(lib, profiles, raw).value;
             && r.body.profile in profiles
             && r.exported == (if registration then r.goal else proof)
             && r.body.outcome == (if registration then 0 else fixtureOutcome)
    ensures var r := ValidateRequest(lib, profiles, raw).value;
            var inputs := FixtureInputs(lib, profiles[r.body.profile], r.goal, proof, registration,
                                        fixtureOutcome, fixtureGoalHash);
            inputs == if fixtureGoalHash == r.body.goalHash
                      then Some((r.body.outcome, r.wire, r.journal)) else None
  {
    AcceptedRequest(lib, profiles, raw);
    var r := ValidateRequest(lib, profiles, raw).value;
    SameInputs(lib, profiles[r.body.profile], r, proof, registration, fixtureOutcome, fixtureGoalHash);
  }
}
