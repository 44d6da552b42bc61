/** The top-level script: list the names, look each one up, accumulate the
    records, and write the accumulated list as a backup after every hundredth
    name and as the final table at the end. */
module Pipeline {
  import opened Options
  import opened Api
  import opened Enricher

  /** A backup is written after every this many names, failed ones included. */
  const CheckpointInterval := 100
  const BackupPath := "backup_pokemon.csv"
  const FinalPath := "pokemon_data.csv"

  // ---------------------------------------------------------------- listing

  /** `response.raise_for_status()` raises for client and server errors. */
  predicate RaisesForStatus(status: int) {
    400 <= status < 600
  }

  /** The listing request: the names of the listed entries, in listing
      order (`None` for a `null` name), or no names at all when the request
      raises, its status raises, its body does not parse, or it lacks
      `results` or an entry lacks `name`. */
  function ListNames(listing: Response<ListingPayload>): (names: seq<Option<string>>)
    ensures listing.Raised? || RaisesForStatus(listing.status) || listing.body.None? || listing.body.value.results.None? ==>
      names == []
    ensures listing.Answered? && !RaisesForStatus(listing.status) && listing.body.Some? && listing.body.value.results.Some? ==>
      var items := listing.body.value.results.value;
      if forall i :: 0 <= i < |items| ==> !items[i].name.Missing? then
        && |names| == |items|
        && forall i :: 0 <= i < |items| ==>
             names[i] == (if items[i].name.Present? then Some(items[i].name.value) else None)
      else
        names == []
  {
    match listing
    case Raised => []
    case Answered(status, body) =>
      if RaisesForStatus(status) || body.None? || body.value.results.None? then []
      else
        var items := body.value.results.value;
        var read := seq(|items|, i requires 0 <= i < |items| =>
          if items[i].name.Missing? then None else Some(GetName(items[i].name)));
        assert forall i :: 0 <= i < |items| ==> (read[i].Some? <==> !items[i].name.Missing?);
        match AllPresent(read)
        case None => []
        case Some(names) => names
  }

  // ---------------------------------------------------------------- lookups

  /** What the upstream answers when one name is looked up. */
  datatype Exchange = Exchange(primary: Response<PokemonPayload>, species: Response<SpeciesPayload>)

  /** `get_pokemon_data(name)` for one listed name: a `null` name raises at
      `.lower()` inside the `try` and gives no record, before any request;
      a string name is answered by `upstream`. */
  function Lookup(name: Option<string>, upstream: string -> Exchange): (r: Option<Record>)
    ensures name.None? ==> r.None?
    ensures name.Some? ==> r == GetPokemonData(upstream(name.value).primary, upstream(name.value).species)
  {
    match name
    case None => None
    case Some(n) => GetPokemonData(upstream(n).primary, upstream(n).species)
  }

  /** The outcome of `get_pokemon_data` for each name, in order. */
  function Outcomes(names: seq<Option<string>>, upstream: string -> Exchange): seq<Option<Record>> {
    seq(|names|, i requires 0 <= i < |names| => Lookup(names[i], upstream))
  }

  /** The records of the successful outcomes, in outcome order: what the
      loop has appended after processing `outs`. */
  function Successes(outs: seq<Option<Record>>): seq<Record> {
    if outs == [] then []
    else
      var last := outs[|outs| - 1];
      Successes(outs[..|outs| - 1]) + if last.Some? then [last.value] else []
  }

  /** `rows` are the records at the strictly increasing positions `pos` of
      `outs`, and `pos` holds every successful position. */
  ghost predicate Selects(outs: seq<Option<Record>>, rows: seq<Record>, pos: seq<int>) {
    && |pos| == |rows|
    && (forall j :: 0 <= j < |pos| ==> 0 <= pos[j] < |outs| && outs[pos[j]] == Some(rows[j]))
    && (forall j, k :: 0 <= j < k < |pos| ==> pos[j] < pos[k])
    && (forall i :: 0 <= i < |outs| && outs[i].Some? ==> i in pos)
  }

  /** Row count: one row per successful lookup, so N names with K failures
      give N - K rows. */
  lemma {:induction false} SuccessCount(outs: seq<Option<Record>>)
    ensures |Successes(outs)| == |outs| - multiset(outs)[None]
  {
    if outs != [] {
      var init := outs[..|outs| - 1];
      SuccessCount(init);
      assert outs == init + [outs[|outs| - 1]];
      assert multiset(outs) == multiset(init) + multiset{outs[|outs| - 1]};
    }
  }

  /** The accumulated list has as many rows as names exactly when no lookup
      failed, and fewer otherwise. */
  lemma AllRowsIffNoFailure(outs: seq<Option<Record>>)
    ensures |Successes(outs)| <= |outs|
    ensures |Successes(outs)| == |outs| <==> None !in outs
  {
  }

  /** The positions of the successful outcomes, in increasing order. */
  function SuccessPositions(outs: seq<Option<Record>>): seq<int> {
    if outs == [] then []
    else SuccessPositions(outs[..|outs| - 1]) + if outs[|outs| - 1].Some? then [|outs| - 1] else []
  }

  /** Order preservation: the accumulated list is exactly the successful
      records, each taken once, in input order. */
  lemma {:induction false} SuccessesInOrder(outs: seq<Option<Record>>)
    ensures Selects(outs, Successes(outs), SuccessPositions(outs))
  {
    if outs != [] {
      var n := |outs| - 1;
      var init := outs[..n];
      SuccessesInOrder(init);
      var pos, rows := SuccessPositions(init), Successes(init);
      assert forall j :: 0 <= j < |pos| ==> pos[j] < n && outs[pos[j]] == init[pos[j]];
      assert forall i :: 0 <= i < n ==> outs[i] == init[i];
      if outs[n].Some? {
        assert Successes(outs) == rows + [outs[n].value];
        assert SuccessPositions(outs) == pos + [n];
      } else {
        assert Successes(outs) == rows;
        assert SuccessPositions(outs) == pos;
      }
    }
  }

  /** No record is invented or lost: a record is in the accumulated list
      exactly when some lookup returned it. */
  lemma {:induction false} SuccessMembers(outs: seq<Option<Record>>, r: Record)
    ensures r in Successes(outs) <==> Some(r) in outs
  {
    if outs != [] {
      var init := outs[..|outs| - 1];
      SuccessMembers(init, r);
      assert outs == init + [outs[|outs| - 1]];
    }
  }

  /** The list only grows: what was accumulated after the first `i` names is
      a prefix of what is accumulated after all of them. */
  lemma {:induction false} SuccessesPrefix(outs: seq<Option<Record>>, i: nat)
    requires i <= |outs|
    ensures Successes(outs[..i]) <= Successes(outs)
  {
    if i < |outs| {
      var init := outs[..|outs| - 1];
      SuccessesPrefix(init, i);
      assert init[..i] == outs[..i];
    } else {
      assert outs[..i] == outs;
    }
  }

  // ---------------------------------------------------------------- snapshots

  /** One write of the whole accumulated list to the table file `path`,
      made after `after` names were processed. */
  datatype Snapshot = Snapshot(path: string, after: nat, rows: seq<Record>)

  /** The backups a run has written after processing the first `n` of
      `outs`: one after each multiple of the checkpoint interval up to `n`,
      holding every success so far. */
  ghost predicate BackupsUpTo(outs: seq<Option<Record>>, n: nat, log: seq<Snapshot>) {
    && n <= |outs|
    && |log| == n / CheckpointInterval
    && forall j :: 0 <= j < |log| ==>
         && (j + 1) * CheckpointInterval <= n
         && log[j] == Snapshot(BackupPath, (j + 1) * CheckpointInterval, Successes(outs[..(j + 1) * CheckpointInterval]))
  }

  /** The writes a whole run over `outs` makes: the backups, then the final
      table holding every success. */
  ghost predicate IsRunLog(outs: seq<Option<Record>>, log: seq<Snapshot>) {
    && |log| > 0
    && BackupsUpTo(outs, |outs|, log[..|log| - 1])
    && log[|log| - 1] == Snapshot(FinalPath, |outs|, Successes(outs))
  }

  /** Re-running on the same answers writes the same tables. */
  lemma RunLogUnique(outs: seq<Option<Record>>, a: seq<Snapshot>, b: seq<Snapshot>)
    requires IsRunLog(outs, a) && IsRunLog(outs, b)
    ensures a == b
  {
  }

  /** A backup is written after the name at 1-indexed position `p`, counting
      failed names, exactly when `p` is a multiple of the interval; the final
      table is written once, last. */
  lemma BackupsAtMultiples(outs: seq<Option<Record>>, log: seq<Snapshot>, p: int)
    requires IsRunLog(outs, log)
    requires 1 <= p <= |outs|
    ensures (exists j :: 0 <= j < |log| && log[j].path == BackupPath && log[j].after == p) <==> p % CheckpointInterval == 0
    ensures forall j :: 0 <= j < |log| ==> (log[j].path == FinalPath <==> j == |log| - 1)
  {
    var backups := log[..|log| - 1];
    assert BackupPath[0] != FinalPath[0];
    forall j | 0 <= j < |log|
      ensures log[j].path == BackupPath ==> log[j].after % CheckpointInterval == 0
      ensures log[j].path == FinalPath <==> j == |log| - 1
    {
      if j < |backups| {
        assert log[j] == backups[j];
      }
    }
    if p % CheckpointInterval == 0 {
      var j := p / CheckpointInterval - 1;
      assert log[j] == backups[j];
      assert log[j].path == BackupPath && log[j].after == p;
    }
  }

  /** Every snapshot is a prefix of the final table, and a backup taken after
      `after` names has one row per success among those names. */
  lemma SnapshotContents(outs: seq<Option<Record>>, log: seq<Snapshot>, j: int)
    requires IsRunLog(outs, log)
    requires 0 <= j < |log|
    ensures log[j].after <= |outs|
    ensures log[j].rows == Successes(outs[..log[j].after])
    ensures log[j].rows <= log[|log| - 1].rows
    ensures |log[j].rows| == log[j].after - multiset(outs[..log[j].after])[None]
  {
    assert outs[..|outs|] == outs;
    SuccessesPrefix(outs, log[j].after);
    SuccessCount(outs[..log[j].after]);
  }

  // ---------------------------------------------------------------- the loop

  /** One turn of the loop for the name at 1-based position `idx`: a backup
      is due exactly when `idx` is a multiple of the interval, and it holds
      the successes among the first `idx` names. */
  lemma BackupStep(outs: seq<Option<Record>>, idx: nat, log: seq<Snapshot>)
    requires 1 <= idx <= |outs|
    requires BackupsUpTo(outs, idx - 1, log)
    ensures BackupsUpTo(outs, idx,
      if idx % CheckpointInterval == 0 then log + [Snapshot(BackupPath, idx, Successes(outs[..idx]))] else log)
  {
  }

  /** The main loop: look up each name in turn with a 1-based counter,
      append every record, and write a backup whenever the counter is a
      multiple of the interval; then write the final table. Returns the
      accumulated list and the writes made, in order. */
  method Collect(names: seq<Option<string>>, upstream: string -> Exchange) returns (collected: seq<Record>, snapshots: seq<Snapshot>)
    ensures collected == Successes(Outcomes(names, upstream))
    ensures IsRunLog(Outcomes(names, upstream), snapshots)
  {
    ghost var outs := Outcomes(names, upstream);
    collected := [];
    snapshots := [];
    var idx := 1;
    while idx <= |names|
      invariant 1 <= idx <= |names| + 1
      invariant collected == Successes(outs[..idx - 1])
      invariant BackupsUpTo(outs, idx - 1, snapshots)
    {
      var name := names[idx - 1];
      var data := Lookup(name, upstream);
      assert data == outs[idx - 1];
      assert outs[..idx][..idx - 1] == outs[..idx - 1];
      if data.Some? {
        collected := collected + [data.value];
      }
      assert collected == Successes(outs[..idx]);
      BackupStep(outs, idx, snapshots);
      if idx % CheckpointInterval == 0 {
        snapshots := snapshots + [Snapshot(BackupPath, idx, collected)];
      }
      idx := idx + 1;
    }
    assert outs[..|names|] == outs;
    ghost var backups := snapshots;
    snapshots := snapshots + [Snapshot(FinalPath, |names|, collected)];
    assert snapshots[..|snapshots| - 1] == backups;
  }

  /** The whole script: the listing, then the loop over the listed names. A
      failed listing means no lookups, no backups, and an empty final table. */
  method Run(listing: Response<ListingPayload>, upstream: string -> Exchange) returns (snapshots: seq<Snapshot>)
    ensures IsRunLog(Outcomes(ListNames(listing), upstream), snapshots)
    ensures ListNames(listing) == [] ==> snapshots == [Snapshot(FinalPath, 0, [])]
  {
    var names := ListNames(listing);
    var collected;
    collected, snapshots := Collect(names, upstream);
  }
}
