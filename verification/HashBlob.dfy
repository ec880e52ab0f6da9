// The newline-terminated hash blob of omp1_determinism.rs: how it is split, how a
// re-recorded fixture renders it, and why one undoes the other.
module HashBlob {
  import opened Results
  import opened Fnv1a64

  const NEWLINE: char := '\n'

  // One trailing newline, if there is one, is not a line of its own.
  function StripSuffix(s: string): string {
    if |s| > 0 && s[|s| - 1] == NEWLINE then s[..|s| - 1] else s
  }

  // Splitting never gives fewer than one piece.
  function Split(s: string): (r: seq<string>)
    ensures |r| >= 1
  {
    if s == "" then [""]
    else
      var rest := Split(s[1..]);
      if s[0] == NEWLINE then [""] + rest else [[s[0]] + rest[0]] + rest[1..]
  }

  function Lines(blob: string): seq<string> {
    Split(StripSuffix(blob))
  }

  // Every line followed by a newline.
  function Render(lines: seq<string>): string {
    if lines == [] then "" else lines[0] + [NEWLINE] + Render(lines[1..])
  }

  predicate OneLine(s: string) {
    NEWLINE !in s
  }

  predicate OneLineEach(lines: seq<string>) {
    forall i :: 0 <= i < |lines| ==> OneLine(lines[i])
  }

  lemma {:induction false} SplitAfterLine(line: string, rest: string)
    requires OneLine(line)
    ensures Split(line + [NEWLINE] + rest) == [line] + Split(rest)
    ensures Split(line) == [line]
  {
    var s := line + [NEWLINE] + rest;
    if line == "" {
      assert s[1..] == rest;
    } else {
      SplitAfterLine(line[1..], rest);
      assert s[1..] == line[1..] + [NEWLINE] + rest && s[0] == line[0];
      assert [line[0]] + line[1..] == line;
    }
  }

  lemma {:induction false} RenderEndsWithNewline(lines: seq<string>)
    requires lines != []
    ensures Render(lines) != "" && Render(lines)[|Render(lines)| - 1] == NEWLINE
  {
    if |lines| > 1 {
      RenderEndsWithNewline(lines[1..]);
    }
  }

  // A rendered blob splits back into exactly the lines it was made of, as long
  // as there is at least one.
  lemma {:induction false} LinesOfRender(lines: seq<string>)
    requires OneLineEach(lines) && lines != []
    ensures Lines(Render(lines)) == lines
  {
    var first, rest := lines[0], lines[1..];
    RenderEndsWithNewline(lines);
    if rest == [] {
      assert StripSuffix(Render(lines)) == first;
      SplitAfterLine(first, "");
    } else {
      RenderEndsWithNewline(rest);
      LinesOfRender(rest);
      assert StripSuffix(Render(lines)) == first + [NEWLINE] + StripSuffix(Render(rest));
      SplitAfterLine(first, StripSuffix(Render(rest)));
    }
  }

  // The round trip holds for every list but the empty one, which reads back as
  // a single empty line.
  lemma RoundTripExactly(lines: seq<string>)
    requires OneLineEach(lines)
    ensures Lines(Render(lines)) == lines <==> lines != []
    ensures Lines(Render([])) == [""]
  {
    if lines != [] {
      LinesOfRender(lines);
    }
  }

  lemma {:induction false} RenderOfSplit(s: string)
    ensures Render(Split(s)) == s + [NEWLINE] && OneLineEach(Split(s))
  {
    if s != "" {
      RenderOfSplit(s[1..]);
      var rest := Split(s[1..]);
      assert s == [s[0]] + s[1..];
      if s[0] == NEWLINE {
        assert ([""] + rest)[1..] == rest;
      } else {
        var lines := [[s[0]] + rest[0]] + rest[1..];
        assert lines[1..] == rest[1..];
        assert Render(lines) == [s[0]] + Render(rest);
        forall i | 0 <= i < |lines| ensures OneLine(lines[i]) {
          assert i > 0 ==> lines[i] == rest[i];
        }
      }
    }
  }

  // The other way round: rendering a blob's lines gives the blob back, ended by
  // a newline if it was not.
  lemma RenderOfLines(blob: string)
    ensures Render(Lines(blob)) == blob <==> blob != "" && blob[|blob| - 1] == NEWLINE
    ensures Render(Lines(blob)) == StripSuffix(blob) + [NEWLINE]
  {
    RenderOfSplit(StripSuffix(blob));
    if blob != "" && blob[|blob| - 1] == NEWLINE {
      assert blob == blob[..|blob| - 1] + [NEWLINE];
    }
  }

  // ----- re-recording -----

  datatype Fixture = Fixture(
    version: int,
    fixtureId: string,
    durationSeconds: int,
    frameCount: int,
    boundaryCount: int,
    identity: string,
    sourceSeeds: seq<int>,
    windows: seq<string>,
    eventCounts: map<string, int>,
    expectedScore: (int, int),
    expectedFinalHash: string,
    expectedSequenceDigest: string,
    frameWires: string,
    boundaryHashes: string)

  datatype Derived = Derived(boundaryHashes: seq<string>, sequenceDigest: string)

  datatype RecordError =
    | NoBoundary
    | BoundaryNotCanonical(index: nat, hash: string)
    | DigestNotCanonical(digest: string)
    | DoesNotSerialize
    | DoesNotParse
    | Perturbed(field: string)
    | DerivedLost

  // The document format, as a pair of functions.
  datatype Codec = Codec(serialize: Fixture -> Option<string>, parse: string -> Option<Fixture>)

  ghost predicate Faithful(codec: Codec) {
    forall f :: codec.serialize(f).Some? && codec.parse(codec.serialize(f).value) == Some(f)
  }

  predicate AllCanonical(hashes: seq<string>) {
    forall i :: 0 <= i < |hashes| ==> IsCanonicalHash(hashes[i])
  }

  // The frozen fields of one fixture, the derived fields of a recording.
  function Rerecorded(frozen: Fixture, derived: Derived): Fixture
    requires derived.boundaryHashes != []
  {
    frozen.(boundaryCount := |derived.boundaryHashes|,
            expectedFinalHash := derived.boundaryHashes[|derived.boundaryHashes| - 1],
            expectedSequenceDigest := derived.sequenceDigest,
            boundaryHashes := Render(derived.boundaryHashes))
  }

  method RenderAll(hashes: seq<string>) returns (blob: string)
    ensures blob == Render(hashes)
  {
    blob := "";
    for i := 0 to |hashes|
      invariant blob + Render(hashes[i..]) == Render(hashes)
    {
      assert hashes[i..][0] == hashes[i] && hashes[i..][1..] == hashes[i + 1..];
      blob := blob + hashes[i] + [NEWLINE];
    }
  }

  method RerecordedJson(frozen: Fixture, derived: Derived, codec: Codec) returns (r: Result<string, RecordError>)
    // Which recordings are refused, and at which hash.
    ensures derived.boundaryHashes == [] <==> r == Err(NoBoundary)
    ensures forall index: nat, hash :: r == Err(BoundaryNotCanonical(index, hash)) ==>
              && index < |derived.boundaryHashes| && hash == derived.boundaryHashes[index]
              && !IsCanonicalHash(hash) && AllCanonical(derived.boundaryHashes[..index])
    ensures !AllCanonical(derived.boundaryHashes) ==> r.Err? && r.error.BoundaryNotCanonical?
    ensures r.Err? && r.error.DigestNotCanonical? <==>
              && derived.boundaryHashes != [] && AllCanonical(derived.boundaryHashes)
              && !IsCanonicalHash(derived.sequenceDigest)
    // What a document that is handed out reads back as.
    ensures r.Ok? ==>
              && derived.boundaryHashes != [] && AllCanonical(derived.boundaryHashes)
              && IsCanonicalHash(derived.sequenceDigest)
              && codec.parse(r.value) == Some(Rerecorded(frozen, derived))
    // A faithful format leaves no other reason to fail.
    ensures (Faithful(codec) && derived.boundaryHashes != [] && AllCanonical(derived.boundaryHashes)
             && IsCanonicalHash(derived.sequenceDigest)) ==> r.Ok?
  {
    if |derived.boundaryHashes| == 0 {
      return Err(NoBoundary);
    }
    for index := 0 to |derived.boundaryHashes|
      invariant AllCanonical(derived.boundaryHashes[..index])
    {
      if !IsCanonicalHash(derived.boundaryHashes[index]) {
        return Err(BoundaryNotCanonical(index, derived.boundaryHashes[index]));
      }
    }
    assert derived.boundaryHashes[..|derived.boundaryHashes|] == derived.boundaryHashes;
    if !IsCanonicalHash(derived.sequenceDigest) {
      return Err(DigestNotCanonical(derived.sequenceDigest));
    }
    var rerecorded := frozen;
    rerecorded := rerecorded.(boundaryCount := |derived.boundaryHashes|);
    rerecorded := rerecorded.(expectedFinalHash := derived.boundaryHashes[|derived.boundaryHashes| - 1]);
    rerecorded := rerecorded.(expectedSequenceDigest := derived.sequenceDigest);
    var blob := RenderAll(derived.boundaryHashes);
    rerecorded := rerecorded.(boundaryHashes := blob);
    assert rerecorded == Rerecorded(frozen, derived);

    var json := codec.serialize(rerecorded);
    if json.None? {
      return Err(DoesNotSerialize);
    }
    var parsed := codec.parse(json.value);
    if parsed.None? {
      return Err(DoesNotParse);
    }
    var p := parsed.value;
    var checks := [
      ("version", p.version == frozen.version),
      ("fixture_id", p.fixtureId == frozen.fixtureId),
      ("duration_seconds", p.durationSeconds == frozen.durationSeconds),
      ("frame_count", p.frameCount == frozen.frameCount),
      ("identity", p.identity == frozen.identity),
      ("source_seeds", p.sourceSeeds == frozen.sourceSeeds),
      ("windows", p.windows == frozen.windows),
      ("event_counts", p.eventCounts == frozen.eventCounts),
      ("expected_score", p.expectedScore == frozen.expectedScore),
      ("frame_wires", p.frameWires == frozen.frameWires)
    ];
    for i := 0 to |checks|
      invariant forall j :: 0 <= j < i ==> checks[j].1
    {
      if !checks[i].1 {
        return Err(Perturbed(checks[i].0));
      }
    }
    if p.boundaryHashes != rerecorded.boundaryHashes || p.boundaryCount != rerecorded.boundaryCount
       || p.expectedFinalHash != rerecorded.expectedFinalHash
       || p.expectedSequenceDigest != rerecorded.expectedSequenceDigest
    {
      return Err(DerivedLost);
    }
    assert checks[0].1 && checks[1].1 && checks[2].1 && checks[3].1 && checks[4].1;
    assert checks[5].1 && checks[6].1 && checks[7].1 && checks[8].1 && checks[9].1;
    return Ok(json.value);
  }

  // A re-recorded fixture agrees with itself: its blob splits into exactly the
  // recorded hashes, as many as it counts, ending with its final hash.
  lemma RerecordedAgrees(frozen: Fixture, derived: Derived)
    requires derived.boundaryHashes != [] && AllCanonical(derived.boundaryHashes)
    ensures var f := Rerecorded(frozen, derived);
            && Lines(f.boundaryHashes) == derived.boundaryHashes
            && |Lines(f.boundaryHashes)| == f.boundaryCount
            && Lines(f.boundaryHashes)[f.boundaryCount - 1] == f.expectedFinalHash
  {
    assert OneLineEach(derived.boundaryHashes);
    LinesOfRender(derived.boundaryHashes);
  }
}
