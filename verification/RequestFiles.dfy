// request.py, lines 48-72 and 110-149, once more: which request files are accepted, in terms
// of the fields of the file.
module RequestFiles {
  import opened Options
  import opened Bytes
  import opened JsonValues
  import opened Libraries
  import opened GoalScan
  import opened Requests

  // ---- The parts of the file ----

  // A package of the request carries these bytes.
  ghost predicate PartHolds(lib: Library, part: Json, data: bytes) {
    && part.Obj? && part.fields.Keys == {"base64", "sha256", "bytes"}
    && part.fields["bytes"] == Int(|data|) && 0 < |data| <= 1048576
    && part.fields["base64"].Str? && |part.fields["base64"].s| <= 1398104
    && lib.fromBase64(part.fields["base64"].s) == Some(data)
    && lib.toBase64(data) == part.fields["base64"].s
    && part.fields["sha256"] == Str(Hex(lib.sha256(data)))
  }

  ghost predicate SourceHolds(lib: Library, source: Json, data: bytes) {
    && source.Obj? && source.fields.Keys == {"text", "sha256"}
    && source.fields["text"].Str? && lib.utf8(source.fields["text"].s) == Some(data) && 0 < |data| <= 524288
    && source.fields["sha256"] == Str(Hex(lib.sha256(data)))
  }

  lemma HashText(lib: Library, data: bytes, j: Json)
    ensures HexValue(j) == Some(HexSha(lib, data)) <==> j == Str(Hex(lib.sha256(data)))
  {
    HexIsLower(lib.sha256(data));
  }

  lemma PartExactly(lib: Library, part: Json, data: bytes, digest: string)
    ensures DecodedPart(lib, part) == Some((data, digest)) <==>
            PartHolds(lib, part, data) && digest == Hex(lib.sha256(data))
  {
    if part.Obj? && part.fields.Keys == PART_KEYS { HashText(lib, data, part.fields["sha256"]); }
  }

  ghost predicate SourceStated(lib: Library, source: Json, digest: string) {
    exists data :: SourceHolds(lib, source, data) && digest == Hex(lib.sha256(data))
  }

  lemma SourceExactly(lib: Library, source: Json, digest: string)
    ensures SourceDigest(lib, source) == Some(digest) <==> SourceStated(lib, source, digest)
  {
    if source.Obj? && source.fields.Keys == SOURCE_KEYS && source.fields["text"].Str? {
      var data := lib.utf8(source.fields["text"].s);
      if data.Some? { HashText(lib, data.value, source.fields["sha256"]); }
    }
  }

  // The text of 32 bytes behind 0x.
  ghost predicate WordText(s: string) {
    exists word: bytes :: |word| == 32 && s == "0x" + Hex(word)
  }

  lemma PrefixedExactly(s: string)
    ensures Prefixed(s) <==> WordText(s)
  {
    if Prefixed(s) {
      UnhexExact(s[2..], 32);
      assert s == "0x" + Hex(Unhex(s[2..]).value);
    }
    if WordText(s) {
      var word: bytes :| |word| == 32 && s == "0x" + Hex(word);
      HexIsLower(word);
      assert s[..2] == "0x" && s[2..] == Hex(word);
    }
  }

  // ---- The whole file ----

  ghost predicate AssetsHold(lib: Library, profile: Profile) {
    forall name | name in profile.files ::
      name in profile.assets && Hex(lib.sha256(profile.assets[name])) == profile.files[name]
  }

  // The fields before the packages, and the profile they name.
  ghost predicate HeadFields(lib: Library, profiles: map<string, Profile>, top: Json, b: Body) {
    && top.Obj?
    && top.fields.Keys == {"format", "requestNonce", "profile", "profileId", "imageId", "goalHash", "outcome",
                           "source", "goal", "export"}
    && top.fields["format"] == Str("oncm-proof-request-v1")
    && top.fields["requestNonce"] == Str(b.requestNonce) && lib.canonicalUuid(b.requestNonce)
    && top.fields["profile"] == Str(b.profile) && b.profile in {"perf05", "v3"} && b.profile in profiles
    && top.fields["outcome"] == Int(b.outcome) && b.outcome in {0, 1, 2}
    && top.fields["profileId"] == Str(b.profileId) && b.profileId == profiles[b.profile].profileId
    && top.fields["imageId"] == Str(b.imageId) && b.imageId == profiles[b.profile].imageId
    && AssetsHold(lib, profiles[b.profile])
  }

  ghost predicate HeadHolds(lib: Library, profiles: map<string, Profile>, top: Json, b: Body) {
    && HeadFields(lib, profiles, top, b)
    && WordText(b.profileId) && WordText(b.imageId)
    && SourceStated(lib, top.fields["source"], b.sourceSha256)
  }

  lemma HeaderChecked(lib: Library, profiles: map<string, Profile>, top: Json, b: Body)
    ensures Header(lib, profiles, top) == Some(b) <==>
            && HeadFields(lib, profiles, top, b)
            && Prefixed(b.profileId) && Prefixed(b.imageId)
            && SourceDigest(lib, top.fields["source"]) == Some(b.sourceSha256)
            && b.goalHash == b.goalSha256 == b.exportSha256 == ""
  {
    if b.profile in profiles {
      assert AssetsHold(lib, profiles[b.profile]) <==> PinnedFiles(lib, profiles[b.profile]);
    }
  }

  // The goal and the whole export belong together, and to the profile's foundation.
  ghost predicate PackagesHold(lib: Library, profile: Profile, outcome: nat, goal: bytes, exported: bytes) {
    && "fixtures/foundation.ndjson" in profile.assets
    && Hex(lib.sha256(profile.assets["fixtures/foundation.ndjson"])) == profile.foundationSha256
    && profile.assets["fixtures/foundation.ndjson"] <= goal <= exported
    && Boundary(lib, exported) == Some(|goal|)
    && (outcome == 0 ==> goal == exported)
  }

  // The fields and packages of a request, and what is made of them.
  ghost predicate FileHolds(lib: Library, profiles: map<string, Profile>, raw: bytes, top: Json, r: Request) {
    var b := r.body;
    && HeadHolds(lib, profiles, top, b)
    && PartHolds(lib, top.fields["goal"], r.goal) && b.goalSha256 == Hex(lib.sha256(r.goal))
    && PartHolds(lib, top.fields["export"], r.exported) && b.exportSha256 == Hex(lib.sha256(r.exported))
    && top.fields["goalHash"] == Str(b.goalHash) && b.goalHash == "0x" + Hex(lib.sha256(r.goal))
    && PackagesHold(lib, profiles[b.profile], b.outcome, r.goal, r.exported)
    && r.digest == Hex(lib.sha256(raw))
    && r.wire == Wire(|r.goal|, b.outcome, r.exported)
    && Claims(lib, r, r.journal)
  }

  // A request file.
  ghost predicate RequestFile(lib: Library, profiles: map<string, Profile>, raw: bytes, r: Request) {
    && 0 < |raw| <= 4194304 && lib.strict(raw) && lib.loads(raw).Some?
    && FileHolds(lib, profiles, raw, lib.loads(raw).value, r)
  }

  lemma PackagesExactly(lib: Library, profile: Profile, outcome: nat, stated: Json, goalHash: string, goal: bytes,
                        exported: bytes)
    ensures PrefixedHexValue(stated) == Some(goalHash) && Bound(lib, profile, outcome, goalHash, goal, exported) <==>
            && stated == Str(goalHash) && goalHash == "0x" + Hex(lib.sha256(goal))
            && PackagesHold(lib, profile, outcome, goal, exported)
  {
    PrefixedExactly(goalHash);
  }

  lemma ClaimWords(lib: Library, goalHash: bytes, id: bytes, outcome: nat, j: bytes)
    requires |goalHash| == |id| == 32 && outcome <= 2
    ensures j == lib.sha256(Ascii(DOMAIN)) + (goalHash + id) + Big(outcome, 32) <==>
            && |j| == 128 && j[..32] == lib.sha256(Ascii(DOMAIN)) && j[32..64] == goalHash && j[64..96] == id
            && FromBig(j[96..]) == outcome
  {
    FourWords(lib.sha256(Ascii(DOMAIN)), goalHash, id, Big(outcome, 32));
    BigDecodes(outcome, 32);
    if |j| == 128 {
      BigEncodes(j[96..]);
      assert j == j[..32] + (j[32..64] + j[64..96]) + j[96..];
    }
  }

  lemma SameText(a: bytes, b: bytes)
    ensures "0x" + Hex(a) == "0x" + Hex(b) <==> a == b
  {
    HexRoundTrip(a);
    HexRoundTrip(b);
    assert ("0x" + Hex(a))[2..] == Hex(a) && ("0x" + Hex(b))[2..] == Hex(b);
  }

  // What claims the request is its journal.
  lemma ClaimIsJournal(lib: Library, r: Request, id: bytes)
    requires r.body.goalHash == "0x" + Hex(lib.sha256(r.goal)) && r.body.outcome <= 2
    requires |id| == 32 && r.body.profileId == "0x" + Hex(id)
    ensures Claims(lib, r, r.journal) <==>
            HostJournal(lib, r.body.goalHash[2..] + r.body.profileId[2..], r.body.outcome) == Some(r.journal)
  {
    var goalHash: bytes := lib.sha256(r.goal);
    assert r.body.goalHash[2..] == Hex(goalHash) && r.body.profileId[2..] == Hex(id);
    HexThen(goalHash, Hex(id));
    HexRoundTrip(id);
    ClaimWords(lib, goalHash, id, r.body.outcome, r.journal);
    if |r.journal| == 128 { SameText(r.journal[64..96], id); }
  }

  // The steps of the validation, with what each of them yields.
  ghost predicate Steps(lib: Library, profiles: map<string, Profile>, raw: bytes, top: Json, r: Request) {
    var b := r.body;
    && Header(lib, profiles, top) == Some(b.(goalHash := "", goalSha256 := "", exportSha256 := ""))
    && DecodedPart(lib, top.fields["goal"]) == Some((r.goal, b.goalSha256))
    && DecodedPart(lib, top.fields["export"]) == Some((r.exported, b.exportSha256))
    && PrefixedHexValue(top.fields["goalHash"]) == Some(b.goalHash)
    && Bound(lib, profiles[b.profile], b.outcome, b.goalHash, r.goal, r.exported)
    && HostJournal(lib, b.goalHash[2..] + b.profileId[2..], b.outcome) == Some(r.journal)
    && r.digest == HexSha(lib, raw) && r.wire == Wire(|r.goal|, b.outcome, r.exported)
  }

  lemma StepsExactly(lib: Library, profiles: map<string, Profile>, raw: bytes, r: Request)
    ensures ValidateRequest(lib, profiles, raw) == Some(r) <==>
            var top := StrictJson(lib, raw, MAX_REQUEST); top.Some? && Steps(lib, profiles, raw, top.value, r)
  {
  }

  lemma HeadIsHead(lib: Library, profiles: map<string, Profile>, top: Json, b: Body)
    ensures Header(lib, profiles, top) == Some(b.(goalHash := "", goalSha256 := "", exportSha256 := "")) <==>
            HeadHolds(lib, profiles, top, b)
  {
    var head := b.(goalHash := "", goalSha256 := "", exportSha256 := "");
    HeaderChecked(lib, profiles, top, head);
    PrefixedExactly(b.profileId);
    PrefixedExactly(b.imageId);
    if HeadFields(lib, profiles, top, b) { SourceExactly(lib, top.fields["source"], b.sourceSha256); }
  }

  lemma JournalHolds(lib: Library, profiles: map<string, Profile>, top: Json, r: Request)
    requires HeadHolds(lib, profiles, top, r.body) && r.body.goalHash == "0x" + Hex(lib.sha256(r.goal))
    ensures Claims(lib, r, r.journal) <==>
            HostJournal(lib, r.body.goalHash[2..] + r.body.profileId[2..], r.body.outcome) == Some(r.journal)
  {
    var id: bytes :| |id| == 32 && r.body.profileId == "0x" + Hex(id);
    ClaimIsJournal(lib, r, id);
  }

  lemma StepsHold(lib: Library, profiles: map<string, Profile>, raw: bytes, top: Json, r: Request)
    requires top.Obj? && top.fields.Keys == TOP_KEYS
    ensures Steps(lib, profiles, raw, top, r) <==> FileHolds(lib, profiles, raw, top, r)
  {
    var b := r.body;
    HeadIsHead(lib, profiles, top, b);
    if HeadHolds(lib, profiles, top, b) {
      PartExactly(lib, top.fields["goal"], r.goal, b.goalSha256);
      PartExactly(lib, top.fields["export"], r.exported, b.exportSha256);
      PackagesExactly(lib, profiles[b.profile], b.outcome, top.fields["goalHash"], b.goalHash, r.goal, r.exported);
      if b.goalHash == "0x" + Hex(lib.sha256(r.goal)) { JournalHolds(lib, profiles, top, r); }
    }
  }

  // Exactly the request files are accepted, and with exactly these contents.
  lemma AcceptedExactly(lib: Library, profiles: map<string, Profile>, raw: bytes, r: Request)
    ensures ValidateRequest(lib, profiles, raw) == Some(r) <==> RequestFile(lib, profiles, raw, r)
  {
    StepsExactly(lib, profiles, raw, r);
    var top := lib.loads(raw);
    if top.Some? && top.value.Obj? && top.value.fields.Keys == TOP_KEYS {
      StepsHold(lib, profiles, raw, top.value, r);
    }
  }
}
