/** The Cassandra state hash: the id of the latest record, with fallbacks for records without one. */
module StateHash {
  import opened Records
  import opened TimeUuid

  /** How UUIDs are read and written; parsing and printing are the driver's. */
  datatype Codec = Codec(parse: string -> Option<UUID>, show: UUID -> string)

  // Printing is canonical: it reads back. The empty string is no UUID.
  ghost predicate Faithful(codec: Codec) {
    codec.parse("") == None && forall u :: codec.parse(codec.show(u)) == Some(u)
  }

  /** What the UUID generator would supply: clock sequences, the node id, and `TimeUUID()` of this moment. */
  datatype Generator = Generator(sentinelClock: int, fallbackClock: int, node: seq<Byte>, now: UUID)

  datatype HashError = EmptySlice | NoHashOrBirthDate | NoHash

  datatype HashResult = HashResult(hash: string, err: Option<HashError>)

  // ---------------------------------------------------------------- the first greatest time

  // The first position of the greatest time above the sentinel.
  function Best(ts: seq<Option<int>>): (r: Option<nat>)
    ensures r.Some? ==> r.value < |ts| && ts[r.value].Some? && ts[r.value].value > SENTINEL_NANO
    decreases ts, 0
  {
    if ts == [] then None
    else
      var n := |ts| - 1;
      if ts[n].Some? && ts[n].value > BestTime(ts[..n]) then Some(n) else Best(ts[..n])
  }

  function BestTime(ts: seq<Option<int>>): (r: int)
    ensures r >= SENTINEL_NANO
    decreases ts, 1
  {
    var best := Best(ts);
    if best.Some? then ts[best.value].value else SENTINEL_NANO
  }

  predicate IsFirstGreatest(ts: seq<Option<int>>, k: nat) {
    && k < |ts| && ts[k].Some? && ts[k].value > SENTINEL_NANO
    && (forall j :: 0 <= j < |ts| && ts[j].Some? ==> ts[j].value <= ts[k].value)
    && (forall j :: 0 <= j < k && ts[j].Some? ==> ts[j].value < ts[k].value)
  }

  lemma {:induction false} BestIsFirstGreatest(ts: seq<Option<int>>)
    ensures Best(ts).Some? ==> IsFirstGreatest(ts, Best(ts).value)
    ensures forall j :: 0 <= j < |ts| && ts[j].Some? ==> ts[j].value <= BestTime(ts)
  {
    if ts != [] {
      var n := |ts| - 1;
      BestIsFirstGreatest(ts[..n]);
      assert BestTime(ts) == if ts[n].Some? && ts[n].value > BestTime(ts[..n]) then ts[n].value else BestTime(ts[..n]);
      assert forall j :: 0 <= j < n ==> ts[j] == ts[..n][j];
    }
  }

  lemma {:induction false} BestTimeOfConcat(xs: seq<Option<int>>, ys: seq<Option<int>>)
    ensures BestTime(xs + ys) == Max(BestTime(xs), BestTime(ys))
    ensures Best(xs + ys).Some? <==> Best(xs).Some? || Best(ys).Some?
  {
    if ys == [] {
      assert xs + ys == xs;
    } else {
      assert (xs + ys)[..|xs + ys| - 1] == xs + ys[..|ys| - 1];
      BestTimeOfConcat(xs, ys[..|ys| - 1]);
    }
  }

  lemma BestTimeOfSubset(xs: seq<Option<int>>, ys: seq<Option<int>>)
    requires forall x :: x in xs ==> x in ys
    ensures BestTime(xs) <= BestTime(ys)
    ensures Best(xs).Some? ==> Best(ys).Some?
  {
    BestIsFirstGreatest(ys);
    if Best(xs).Some? {
      assert xs[Best(xs).value] in ys;
      var j :| 0 <= j < |ys| && ys[j] == xs[Best(xs).value];
      assert ys[j].value <= BestTime(ys);
    }
  }

  function Max(x: int, y: int): int { if x < y then y else x }

  // ---------------------------------------------------------------- specification

  function IdOf(codec: Codec, record: Record): Option<UUID> { codec.parse(record.rowID) }

  function NanoOf(id: Option<UUID>): Option<int> { if id.Some? then Some(UnixNano(id.value)) else None }

  function Times(codec: Codec, records: seq<Record>): (ts: seq<Option<int>>)
    ensures |ts| == |records| && forall i :: 0 <= i < |ts| ==> ts[i] == NanoOf(IdOf(codec, records[i]))
  {
    seq(|records|, i requires 0 <= i < |records| => NanoOf(IdOf(codec, records[i])))
  }

  // The greatest positive birth date among records whose id does not parse, or zero.
  function BestBirthDate(codec: Codec, records: seq<Record>): int {
    if records == [] then 0
    else
      var best := BestBirthDate(codec, records[..|records| - 1]);
      var record := records[|records| - 1];
      if IdOf(codec, record).None? && record.birthDate > best then record.birthDate else best
  }

  function LoopHash(codec: Codec, gen: Generator, records: seq<Record>): HashResult
    requires |gen.node| == 6
  {
    var best, birthDate := Best(Times(codec, records)), BestBirthDate(codec, records);
    if best.Some? then HashResult(codec.show(IdOf(codec, records[best.value]).value), None)
    else if birthDate != 0 then
      HashResult(codec.show(FromBirthDate(birthDate, gen.fallbackClock, gen.node)), Some(NoHash))
    else HashResult(codec.show(gen.now), Some(NoHashOrBirthDate))
  }

  predicate Shortcut(records: seq<Record>) { |records| == 1 && records[0].rowID != "" }

  function Hash(codec: Codec, gen: Generator, records: seq<Record>): HashResult
    requires |gen.node| == 6
  {
    if records == [] then HashResult("", Some(EmptySlice))
    else if Shortcut(records) then HashResult(records[0].rowID, None)
    else LoopHash(codec, gen, records)
  }

  // ---------------------------------------------------------------- what the answer has to be

  // Record `k` has the first id of greatest time, and that time is above the sentinel's.
  predicate LatestId(codec: Codec, records: seq<Record>, k: nat) {
    && k < |records| && codec.parse(records[k].rowID).Some?
    && UnixNano(codec.parse(records[k].rowID).value) > SENTINEL_NANO
    && forall j :: 0 <= j < |records| && codec.parse(records[j].rowID).Some? ==>
         var time := UnixNano(codec.parse(records[j].rowID).value);
         var latest := UnixNano(codec.parse(records[k].rowID).value);
         time <= latest && (j < k ==> time < latest)
  }

  // No id is above the sentinel.
  predicate AllBelow(codec: Codec, records: seq<Record>) {
    forall j :: 0 <= j < |records| && codec.parse(records[j].rowID).Some? ==>
      UnixNano(codec.parse(records[j].rowID).value) <= SENTINEL_NANO
  }

  // Record `j` has no readable id and the greatest birth date of those without, and that is positive.
  predicate LatestBirth(codec: Codec, records: seq<Record>, j: nat) {
    && j < |records| && codec.parse(records[j].rowID).None? && records[j].birthDate > 0
    && forall i :: 0 <= i < |records| && codec.parse(records[i].rowID).None? ==>
         records[i].birthDate <= records[j].birthDate
  }

  // The id's time is the birth date, or less than 100 ns before it.
  predicate JustBelow(u: UUID, birthDate: int) {
    birthDate < TWO_63 ==> UnixNano(u) <= birthDate < UnixNano(u) + 100
  }

  lemma IdMeans(codec: Codec, records: seq<Record>)
    ensures Best(Times(codec, records)).Some? <==> exists k: nat :: LatestId(codec, records, k)
    ensures Best(Times(codec, records)).None? <==> AllBelow(codec, records)
    ensures Best(Times(codec, records)).Some? ==> LatestId(codec, records, Best(Times(codec, records)).value)
  {
    var ts := Times(codec, records);
    BestIsFirstGreatest(ts);
    forall j | 0 <= j < |records| ensures ts[j] == NanoOf(codec.parse(records[j].rowID)) {}
    if Best(ts).Some? { assert LatestId(codec, records, Best(ts).value); }
    if k: nat :| LatestId(codec, records, k) { assert ts[k].value > SENTINEL_NANO; }
  }

  lemma BirthMeans(codec: Codec, records: seq<Record>)
    ensures BestBirthDate(codec, records) != 0 <==> exists j: nat :: LatestBirth(codec, records, j)
    ensures forall j: nat :: LatestBirth(codec, records, j) ==> records[j].birthDate == BestBirthDate(codec, records)
  {
    BestBirthDateIsGreatest(codec, records);
    assert forall i :: 0 <= i < |records| ==> IdOf(codec, records[i]) == codec.parse(records[i].rowID);
    if BestBirthDate(codec, records) != 0 {
      var j :| 0 <= j < |records| && IdOf(codec, records[j]).None?
               && records[j].birthDate == BestBirthDate(codec, records);
      assert LatestBirth(codec, records, j);
    }
  }

  /**
   What GetStateHash has to answer: an error for no records; the row id of a single
   record that has one; otherwise the first id of greatest time above the sentinel's,
   or, if there is none, an error with an id made of the greatest positive birth date
   of the records without a readable id, or of the present.
   */
  ghost predicate IsStateHash(codec: Codec, gen: Generator, records: seq<Record>, r: HashResult) {
    && (r.err == Some(EmptySlice) <==> records == [])
    && (records == [] ==> r.hash == "")
    && (|records| == 1 && records[0].rowID != "" ==> r.err == None && r.hash == records[0].rowID)
    && (records != [] && !(|records| == 1 && records[0].rowID != "") ==>
          && (r.err == None <==> exists k: nat :: LatestId(codec, records, k))
          && (r.err == None ==> exists k: nat :: LatestId(codec, records, k)
                                                 && r.hash == codec.show(codec.parse(records[k].rowID).value))
          && (r.err == Some(NoHash) <==> AllBelow(codec, records) && exists j: nat :: LatestBirth(codec, records, j))
          && (r.err == Some(NoHash) ==>
                exists j: nat, u :: LatestBirth(codec, records, j) && r.hash == codec.show(u)
                                    && JustBelow(u, records[j].birthDate))
          && (r.err == Some(NoHashOrBirthDate) <==>
                AllBelow(codec, records) && !exists j: nat :: LatestBirth(codec, records, j))
          && (r.err == Some(NoHashOrBirthDate) ==> r.hash == codec.show(gen.now)))
  }

  lemma HashMeans(codec: Codec, gen: Generator, records: seq<Record>)
    requires |gen.node| == 6
    ensures IsStateHash(codec, gen, records, Hash(codec, gen, records))
  {
    IdMeans(codec, records);
    BirthMeans(codec, records);
    if Best(Times(codec, records)).None? && BestBirthDate(codec, records) != 0 {
      var j: nat :| LatestBirth(codec, records, j);
      var u := FromBirthDate(records[j].birthDate, gen.fallbackClock, gen.node);
      if records[j].birthDate < TWO_63 { FallbackBound(records[j].birthDate, gen.fallbackClock, gen.node); }
      assert JustBelow(u, records[j].birthDate);
    }
  }

  // ---------------------------------------------------------------- the code

  // Which id the loop has kept after the times `ts`, given the ids.
  predicate Kept(codec: Codec, records: seq<Record>, ts: seq<Option<int>>, original: UUID, latest: UUID)
    requires |ts| <= |records|
  {
    UnixNano(latest) == BestTime(ts)
    && (Best(ts).None? ==> latest == original)
    && (Best(ts).Some? ==> IdOf(codec, records[Best(ts).value]) == Some(latest))
  }

  // What one more record does to the id kept and to the birth date.
  lemma OneMore(codec: Codec, records: seq<Record>, i: nat, original: UUID, latest: UUID)
    requires i < |records| && Kept(codec, records, Times(codec, records)[..i], original, latest)
    ensures var id := codec.parse(records[i].rowID);
            var next := if id.Some? && UnixNano(id.value) > UnixNano(latest) then id.value else latest;
            Kept(codec, records, Times(codec, records)[..i + 1], original, next)
    ensures BestBirthDate(codec, records[..i + 1])
         == if codec.parse(records[i].rowID).None? && records[i].birthDate > BestBirthDate(codec, records[..i])
            then records[i].birthDate else BestBirthDate(codec, records[..i])
  {
    var ts := Times(codec, records);
    assert records[..i + 1][..i] == records[..i] && ts[..i + 1][..i] == ts[..i];
    assert ts[i] == NanoOf(codec.parse(records[i].rowID));
  }

  // Comparing the id kept with the sentinel tells whether one was found.
  lemma AtEnd(codec: Codec, gen: Generator, records: seq<Record>, original: UUID, latest: UUID)
    requires |gen.node| == 6 && UnixNano(original) == SENTINEL_NANO
    requires Kept(codec, records, Times(codec, records), original, latest)
    ensures latest == original <==> Best(Times(codec, records)).None?
    ensures latest != original ==> LoopHash(codec, gen, records) == HashResult(codec.show(latest), None)
  {
  }

  /**
   GetStateHash. It compares against the UUID of Go's zero time instead of keeping
   a found flag; the fixed-width reading of that UUID is what makes this right.
   */
  method GetStateHash(codec: Codec, gen: Generator, records: seq<Record>) returns (hash: string, err: Option<HashError>)
    requires |gen.node| == 6
    ensures HashResult(hash, err) == Hash(codec, gen, records)
    ensures IsStateHash(codec, gen, records, HashResult(hash, err))
  {
    HashMeans(codec, gen, records);
    if |records| == 0 {
      return "", Some(EmptySlice);
    } else if |records| == 1 && records[0].rowID != "" {
      return records[0].rowID, None;
    }
    var original := FromTime(ZERO_TIME, 0, gen.sentinelClock, gen.node);
    var latest := original;
    var originalBirthDate := 0;
    var latestBirthDate := originalBirthDate;
    SentinelTime(gen.sentinelClock, gen.node);
    for i := 0 to |records|
      invariant latestBirthDate == BestBirthDate(codec, records[..i])
      invariant Kept(codec, records, Times(codec, records)[..i], original, latest)
    {
      OneMore(codec, records, i, original, latest);
      var uuid := codec.parse(records[i].rowID);
      if uuid.None? {
        if records[i].birthDate > latestBirthDate {
          latestBirthDate := records[i].birthDate;
        }
      } else if UnixNano(uuid.value) > UnixNano(latest) {
        latest := uuid.value;
      }
    }
    assert records[..|records|] == records && Times(codec, records)[..|records|] == Times(codec, records);
    AtEnd(codec, gen, records, original, latest);
    if latest == original && latestBirthDate == originalBirthDate {
      return codec.show(gen.now), Some(NoHashOrBirthDate);
    }
    if latest == original {
      return codec.show(FromBirthDate(latestBirthDate, gen.fallbackClock, gen.node)), Some(NoHash);
    }
    return codec.show(latest), None;
  }

  // ---------------------------------------------------------------- what the specification means

  predicate HasId(codec: Codec, records: seq<Record>) {
    exists k :: 0 <= k < |records| && IdOf(codec, records[k]).Some? && Beats(IdOf(codec, records[k]).value)
  }

  predicate HasBirthDate(codec: Codec, records: seq<Record>) {
    exists j :: 0 <= j < |records| && IdOf(codec, records[j]).None? && records[j].birthDate > 0
  }

  lemma HasIdIff(codec: Codec, records: seq<Record>)
    ensures Best(Times(codec, records)).Some? <==> HasId(codec, records)
  {
    var ts := Times(codec, records);
    BestIsFirstGreatest(ts);
    if k :| 0 <= k < |records| && IdOf(codec, records[k]).Some? && Beats(IdOf(codec, records[k]).value) {
      assert ts[k].Some? && ts[k].value > SENTINEL_NANO;
    }
  }

  /** The fallback date is positive exactly when a record without a readable id has one, and is their greatest. */
  lemma {:induction false} BestBirthDateIsGreatest(codec: Codec, records: seq<Record>)
    ensures BestBirthDate(codec, records) >= 0
    ensures forall j :: 0 <= j < |records| && IdOf(codec, records[j]).None? ==>
              records[j].birthDate <= BestBirthDate(codec, records)
    ensures BestBirthDate(codec, records) > 0 ==>
              exists j :: 0 <= j < |records| && IdOf(codec, records[j]).None?
                          && records[j].birthDate == BestBirthDate(codec, records)
  {
    if records != [] {
      var n := |records| - 1;
      BestBirthDateIsGreatest(codec, records[..n]);
      if BestBirthDate(codec, records) > 0 && BestBirthDate(codec, records) == BestBirthDate(codec, records[..n]) {
        var j :| 0 <= j < n && IdOf(codec, records[..n][j]).None?
                 && records[..n][j].birthDate == BestBirthDate(codec, records[..n]);
        assert records[j] == records[..n][j];
      }
    }
  }

  /** The three outcomes of the loop, each with its exact condition, and the id returned. */
  lemma LoopOutcomes(codec: Codec, gen: Generator, records: seq<Record>)
    requires |gen.node| == 6
    ensures var r := LoopHash(codec, gen, records);
            && (r.err == None <==> HasId(codec, records))
            && (r.err == Some(NoHash) <==> !HasId(codec, records) && HasBirthDate(codec, records))
            && (r.err == Some(NoHashOrBirthDate) <==> !HasId(codec, records) && !HasBirthDate(codec, records))
            && (r.err == None ==> exists k: nat :: IsFirstGreatest(Times(codec, records), k)
                                                   && r.hash == codec.show(IdOf(codec, records[k]).value))
  {
    HasIdIff(codec, records);
    BestIsFirstGreatest(Times(codec, records));
    BestBirthDateIsGreatest(codec, records);
  }

  /** A single record with an id takes the shortcut; the loop agrees exactly for canonical ids above the sentinel. */
  lemma ShortcutAgreesIff(codec: Codec, gen: Generator, record: Record)
    requires |gen.node| == 6 && Faithful(codec) && record.rowID != ""
    ensures Hash(codec, gen, [record]) == HashResult(record.rowID, None)
    ensures LoopHash(codec, gen, [record]) == Hash(codec, gen, [record]) <==>
            IdOf(codec, record).Some? && Beats(IdOf(codec, record).value)
            && codec.show(IdOf(codec, record).value) == record.rowID
  {
    var ts := Times(codec, [record]);
    assert ts == [NanoOf(IdOf(codec, record))] && ts[..0] == [];
    assert BestTime(ts[..0]) == SENTINEL_NANO;
  }

  // ---------------------------------------------------------------- order and concatenation

  lemma BestBirthDateOfSubset(codec: Codec, xs: seq<Record>, ys: seq<Record>)
    requires forall r :: r in xs ==> r in ys
    ensures BestBirthDate(codec, xs) <= BestBirthDate(codec, ys)
  {
    BestBirthDateIsGreatest(codec, xs);
    BestBirthDateIsGreatest(codec, ys);
    if BestBirthDate(codec, xs) > 0 {
      var j :| 0 <= j < |xs| && IdOf(codec, xs[j]).None? && xs[j].birthDate == BestBirthDate(codec, xs);
      assert xs[j] in ys;
      var i :| 0 <= i < |ys| && ys[i] == xs[j];
      assert ys[i].birthDate <= BestBirthDate(codec, ys);
    }
  }

  lemma TimesOfSubset(codec: Codec, xs: seq<Record>, ys: seq<Record>)
    requires forall r :: r in xs ==> r in ys
    ensures BestTime(Times(codec, xs)) <= BestTime(Times(codec, ys))
    ensures Best(Times(codec, xs)).Some? ==> Best(Times(codec, ys)).Some?
  {
    forall t | t in Times(codec, xs) ensures t in Times(codec, ys) {
      var i :| 0 <= i < |xs| && Times(codec, xs)[i] == t;
      assert xs[i] in ys;
      var j :| 0 <= j < |ys| && ys[j] == xs[i];
      assert Times(codec, ys)[j] == Times(codec, xs)[i];
    }
    BestTimeOfSubset(Times(codec, xs), Times(codec, ys));
  }

  // The time a returned hash carries, if it is a UUID.
  function HashTime(codec: Codec, r: HashResult): Option<int> { NanoOf(codec.parse(r.hash)) }

  lemma HashTimeIs(codec: Codec, gen: Generator, records: seq<Record>)
    requires |gen.node| == 6 && Faithful(codec)
    ensures HashTime(codec, LoopHash(codec, gen, records))
         == if Best(Times(codec, records)).Some? then Some(BestTime(Times(codec, records)))
            else if BestBirthDate(codec, records) != 0 then
              Some(UnixNano(FromBirthDate(BestBirthDate(codec, records), gen.fallbackClock, gen.node)))
            else Some(UnixNano(gen.now))
  {
  }

  /** The order of the records changes neither the outcome nor the time of the hash. */
  lemma OrderDoesNotMatter(codec: Codec, gen: Generator, xs: seq<Record>, ys: seq<Record>)
    requires |gen.node| == 6 && Faithful(codec) && multiset(xs) == multiset(ys)
    ensures var r, q := Hash(codec, gen, xs), Hash(codec, gen, ys);
            r.err == q.err && HashTime(codec, r) == HashTime(codec, q)
  {
    assert |multiset(xs)| == |xs| && |multiset(ys)| == |ys|;
    forall r ensures r in xs <==> r in ys { assert r in multiset(xs) <==> r in multiset(ys); }
    if |xs| == 1 {
      assert xs[0] in ys;
      assert xs == ys;
    } else if xs != [] {
      TimesOfSubset(codec, xs, ys);
      TimesOfSubset(codec, ys, xs);
      BestBirthDateOfSubset(codec, xs, ys);
      BestBirthDateOfSubset(codec, ys, xs);
      HashTimeIs(codec, gen, xs);
      HashTimeIs(codec, gen, ys);
    }
  }

  // The loop yields no error exactly when it finds an id, and then has its time.
  lemma IdHash(codec: Codec, gen: Generator, records: seq<Record>)
    requires |gen.node| == 6 && Faithful(codec)
    ensures var ts, r := Times(codec, records), LoopHash(codec, gen, records);
            && (r.err.None? <==> Best(ts).Some?)
            && (Best(ts).Some? ==> HashTime(codec, r) == Some(BestTime(ts)))
  {
    HashTimeIs(codec, gen, records);
  }

  /** The hash of a concatenation carries the later of the two parts' times, when both yield ids. */
  lemma ConcatTakesLater(codec: Codec, gen: Generator, xs: seq<Record>, ys: seq<Record>)
    requires |gen.node| == 6 && Faithful(codec)
    requires LoopHash(codec, gen, xs).err.None? && LoopHash(codec, gen, ys).err.None?
    ensures LoopHash(codec, gen, xs + ys).err.None?
    ensures HashTime(codec, LoopHash(codec, gen, xs)).Some? && HashTime(codec, LoopHash(codec, gen, ys)).Some?
    ensures HashTime(codec, LoopHash(codec, gen, xs + ys))
         == Some(Max(HashTime(codec, LoopHash(codec, gen, xs)).value, HashTime(codec, LoopHash(codec, gen, ys)).value))
  {
    IdHash(codec, gen, xs);
    IdHash(codec, gen, ys);
    IdHash(codec, gen, xs + ys);
    BestOfConcat(codec, xs, ys);
  }

  lemma BestOfConcat(codec: Codec, xs: seq<Record>, ys: seq<Record>)
    ensures BestTime(Times(codec, xs + ys)) == Max(BestTime(Times(codec, xs)), BestTime(Times(codec, ys)))
    ensures Best(Times(codec, xs + ys)).Some? <==> Best(Times(codec, xs)).Some? || Best(Times(codec, ys)).Some?
  {
    assert Times(codec, xs + ys) == Times(codec, xs) + Times(codec, ys);
    BestTimeOfConcat(Times(codec, xs), Times(codec, ys));
  }
}
