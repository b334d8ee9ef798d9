// The host that validates a request and the guest that proves it agree on every
// byte: request.py 135-149 against guest main.rs 10-33 and checker lib.rs 23-68.
module Agreement {
  import opened Options
  import opened Sequences
  import opened Bytes
  import opened Libraries
  import opened GoalScan
  import opened Requests
  import opened Guest

  // The profile pins this checker's foundation, and its id is the hash of the
  // checker's tag and foundation digest.
  ghost predicate Pins(lib: Library, profile: Profile, checker: Checker) {
    && FOUNDATION_FILE in profile.assets
    && profile.assets[FOUNDATION_FILE] == checker.foundation
    && profile.profileId == "0x" + Hex(lib.sha256(checker.tag + lib.sha256(checker.foundation)))
  }

  // ---- The wire ----

  lemma OneWord(b: byte, rest: bytes, n: nat)
    ensures var tail := ByteWords(rest, n);
            ByteWords(Little(b, 4) + rest, n + 1) == if tail.Some? then Some([b] + tail.value) else None
  {
    var stream := Little(b, 4) + rest;
    assert stream[0..4] == Little(b, 4) && stream[4..] == rest;
    Pow256Values();
    LittleDecodes(b, 4);
  }

  lemma {:induction false} WordsDecode(data: bytes, rest: bytes)
    ensures ByteWords(Words(data) + rest, |data|) == Some(data)
  {
    if data == [] {
      assert Words(data) + rest == rest;
    } else {
      Regroup(Little(data[0], 4), Words(data[1..]), rest);
      WordsDecode(data[1..], rest);
      OneWord(data[0], Words(data[1..]) + rest, |data| - 1);
      assert data == [data[0]] + data[1..];
    }
  }

  lemma {:induction false} WordsExact(stream: bytes, n: nat)
    requires ByteWords(stream, n).Some?
    ensures Words(ByteWords(stream, n).value) <= stream
  {
    if n > 0 {
      var rest := ByteWords(stream[4..], n - 1).value;
      WordsExact(stream[4..], n - 1);
      LittleEncodes(stream[0..4]);
      var data := ByteWords(stream, n).value;
      assert data[1..] == rest;
      assert stream == stream[0..4] + stream[4..];
    }
  }

  lemma Slices(x: bytes, y: bytes, z: bytes, rest: bytes)
    requires |x| == |y| == |z| == 4
    ensures var stream := x + y + z + rest;
            stream[0..4] == x && stream[4..8] == y && stream[8..12] == z && stream[12..] == rest
  {
  }

  lemma HeaderWords(a: nat, b: nat, c: nat, rest: bytes)
    requires a < Pow256(4) && b < Pow256(4) && c < Pow256(4)
    ensures var stream := Little(a, 4) + Little(b, 4) + Little(c, 4) + rest;
            && WordAt(stream, 0) == a && WordAt(stream, 4) == b && WordAt(stream, 8) == c
            && stream[12..] == rest
  {
    Slices(Little(a, 4), Little(b, 4), Little(c, 4), rest);
    LittleDecodes(a, 4);
    LittleDecodes(b, 4);
    LittleDecodes(c, 4);
  }

  // The guest reads a wire back exactly when its header passes the guest's checks.
  lemma WireDecodes(checker: Checker, goalLength: nat, outcome: nat, exported: bytes, rest: bytes)
    requires goalLength < Pow256(4) && outcome < Pow256(4) && |exported| < Pow256(4)
    ensures GuestInput(checker, Wire(goalLength, outcome, exported) + rest)
         == if HeaderOk(checker, goalLength, outcome, |exported|)
            then Some((goalLength, outcome, exported)) else None
  {
    var stream := Wire(goalLength, outcome, exported) + rest;
    assert stream == Little(goalLength, 4) + Little(outcome, 4) + Little(|exported|, 4) + (Words(exported) + rest);
    HeaderWords(goalLength, outcome, |exported|, Words(exported) + rest);
    WordsDecode(exported, rest);
  }

  lemma HeaderExact(stream: bytes)
    requires |stream| >= 12
    ensures stream == Little(WordAt(stream, 0), 4) + Little(WordAt(stream, 4), 4) + Little(WordAt(stream, 8), 4)
                      + stream[12..]
  {
    LittleEncodes(stream[0..4]);
    LittleEncodes(stream[4..8]);
    LittleEncodes(stream[8..12]);
    assert stream == stream[0..4] + stream[4..8] + stream[8..12] + stream[12..];
  }

  lemma PrefixBehind(head: bytes, a: bytes, b: bytes)
    requires a <= b
    ensures head + a <= head + b
  {
  }

  // And it reads nothing else: an input that decodes to some goal length, outcome
  // and export starts with their wire.
  lemma WireExact(checker: Checker, stdin: bytes)
    requires GuestInput(checker, stdin).Some?
    ensures var (goalLength, outcome, exported) := GuestInput(checker, stdin).value;
            Wire(goalLength, outcome, exported) <= stdin
  {
    var (goalLength, outcome, exported) := GuestInput(checker, stdin).value;
    ByteWordsLength(stdin[12..], WordAt(stdin, 8));
    HeaderExact(stdin);
    WordsExact(stdin[12..], |exported|);
    PrefixBehind(Little(goalLength, 4) + Little(outcome, 4) + Little(|exported|, 4), Words(exported), stdin[12..]);
  }

  // ---- The journal ----

  lemma JournalsEqual(lib: Library, profile: Profile, checker: Checker, goal: bytes, outcome: nat)
    requires Pins(lib, profile, checker)
    ensures HostJournal(lib, Hex(lib.sha256(goal)) + profile.profileId[2..], outcome)
         == Some(Claim(lib, checker, goal, outcome))
  {
    var goalHash: bytes := lib.sha256(goal);
    var profileHash: bytes := lib.sha256(checker.tag + lib.sha256(checker.foundation));
    assert profile.profileId[2..] == Hex(profileHash);
    HexThen(goalHash, Hex(profileHash));
    HexRoundTrip(profileHash);
    var domain: bytes := lib.sha256(Ascii(DOMAIN));
    assert domain + (goalHash + profileHash) + Big(outcome, 32) == domain + goalHash + profileHash + Big(outcome, 32);
  }

  // ---- The main result ----

  lemma RequestIsRead(lib: Library, profile: Profile, checker: Checker, r: Request)
    requires FOUNDATION_FILE in profile.assets && profile.assets[FOUNDATION_FILE] == checker.foundation
    requires r.body.outcome <= 2 && 0 < |r.goal| && |r.exported| <= MAX_EXPORT
    requires Bound(lib, profile, r.body.outcome, r.body.goalHash, r.goal, r.exported)
    requires r.wire == Wire(|r.goal|, r.body.outcome, r.exported)
    ensures GuestInput(checker, r.wire) == Some((|r.goal|, r.body.outcome, r.exported))
    ensures Structured(checker, |r.goal|, r.exported, r.body.outcome) && r.goal == r.exported[..|r.goal|]
  {
    Pow256Values();
    WireDecodes(checker, |r.goal|, r.body.outcome, r.exported, []);
    assert r.wire + [] == r.wire;
    BoundaryAtNewline(lib, r.exported);
  }

  lemma RequestRuns(lib: Library, profile: Profile, checker: Checker, r: Request)
    requires Pins(lib, profile, checker)
    requires r.body.outcome <= 2 && 0 < |r.goal| && |r.exported| <= MAX_EXPORT
    requires Bound(lib, profile, r.body.outcome, r.body.goalHash, r.goal, r.exported)
    requires r.wire == Wire(|r.goal|, r.body.outcome, r.exported)
    requires HostJournal(lib, r.body.goalHash[2..] + profile.profileId[2..], r.body.outcome) == Some(r.journal)
    ensures var outcome := r.body.outcome;
            && GuestInput(checker, r.wire) == Some((|r.goal|, outcome, r.exported))
            && Committed(lib, checker, r.wire) ==
               if checker.goalChecks(r.goal) && (outcome in {1, 2} ==> checker.proofChecks(r.exported, outcome))
               then Some(r.journal) else None
  {
    RequestIsRead(lib, profile, checker, r);
    assert r.body.goalHash[2..] == Hex(lib.sha256(r.goal));
    JournalsEqual(lib, profile, checker, r.goal, r.body.outcome);
  }

  // Everything that must hold of an input and of what it carries for a journal to be
  // committed, written out.
  ghost predicate Commits(lib: Library, checker: Checker, stdin: bytes, goalLength: nat, outcome: nat, exported: bytes,
                          journal: bytes)
  {
    && Wire(goalLength, outcome, exported) <= stdin
    && outcome <= 2 && |exported| <= 16777216
    && checker.foundation <= exported && |checker.foundation| <= goalLength <= |exported|
    && 0 < goalLength && exported[goalLength - 1] == 10
    && (outcome == 0 ==> goalLength == |exported|)
    && checker.goalChecks(exported[..goalLength])
    && (outcome != 0 ==> checker.proofChecks(exported, outcome))
    && journal == Claim(lib, checker, exported[..goalLength], outcome)
  }

  lemma CommittedCommits(lib: Library, checker: Checker, stdin: bytes)
    requires Committed(lib, checker, stdin).Some?
    ensures var (goalLength, outcome, exported) := GuestInput(checker, stdin).value;
            Commits(lib, checker, stdin, goalLength, outcome, exported, Committed(lib, checker, stdin).value)
  {
    WireExact(checker, stdin);
  }

  lemma CommitsIsCommitted(lib: Library, checker: Checker, stdin: bytes, goalLength: nat, outcome: nat,
                           exported: bytes, journal: bytes)
    requires Commits(lib, checker, stdin, goalLength, outcome, exported, journal)
    ensures Committed(lib, checker, stdin) == Some(journal)
  {
    Pow256Values();
    var wire := Wire(goalLength, outcome, exported);
    assert stdin == wire + stdin[|wire|..];
    WireDecodes(checker, goalLength, outcome, exported, stdin[|wire|..]);
  }

  // The guest commits a journal exactly if its input starts with the wire of an export
  // that passes every check, both of the kernel's among them, and the journal claims it.
  lemma CommitsExactly(lib: Library, checker: Checker, stdin: bytes, journal: bytes)
    ensures Committed(lib, checker, stdin) == Some(journal) <==>
            exists goalLength, outcome, exported ::
              Commits(lib, checker, stdin, goalLength, outcome, exported, journal)
  {
    if Committed(lib, checker, stdin) == Some(journal) {
      CommittedCommits(lib, checker, stdin);
      var (goalLength, outcome, exported) := GuestInput(checker, stdin).value;
      assert Commits(lib, checker, stdin, goalLength, outcome, exported, journal);
    }
    if goalLength: nat, outcome: nat, exported :|
        Commits(lib, checker, stdin, goalLength, outcome, exported, journal)
    {
      CommitsIsCommitted(lib, checker, stdin, goalLength, outcome, exported, journal);
    }
  }

  // For every accepted request of a profile that pins the checker, the guest decodes the
  // request's wire to its goal length, outcome and export, and commits the journal the
  // host expects exactly if the kernel accepts the goal and, for a proof or a refutation,
  // the whole export; else it commits nothing.
  lemma AcceptedRequestRuns(lib: Library, profiles: map<string, Profile>, raw: bytes, checker: Checker)
    requires ValidateRequest(lib, profiles, raw).Some?
    requires var name := ValidateRequest(lib, profiles, raw).value.body.profile;
             name in profiles && Pins(lib, profiles[name], checker)
    ensures var r := ValidateRequest(lib, profiles, raw).value;
            var outcome := r.body.outcome;
            && GuestInput(checker, r.wire) == Some((|r.goal|, outcome, r.exported))
            && Committed(lib, checker, r.wire) ==
               if checker.goalChecks(r.goal) && (outcome in {1, 2} ==> checker.proofChecks(r.exported, outcome))
               then Some(r.journal) else None
  {
    AcceptedRequest(lib, profiles, raw);
    var r := ValidateRequest(lib, profiles, raw).value;
    RequestRuns(lib, profiles[r.body.profile], checker, r);
  }
}
