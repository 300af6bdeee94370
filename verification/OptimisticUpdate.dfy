/**
 The version-guarded UPDATE of shared/consistency.py, in every interleaving of
 writers that read a row's version and later try to write it.
 */
module OptimisticUpdate {
  import opened Prelude

  type Column = string
  type Columns = map<Column, int>

  datatype Row = Row(version: int, cols: Columns)

  /** UPDATE ... WHERE pk = ... AND version = expected; `stamp` is the version the statement sets, if any. */
  datatype Reply = Skipped | Updated | Conflict

  function Update(row: Option<Row>, updates: Columns, expected: Option<int>, stamp: Option<int>): (Option<Row>, Reply) {
    if updates.Keys == {} then (row, Skipped)
    else if row.None? || expected.None? || row.value.version != expected.value then (row, Conflict)
    else
      (Some(Row(if stamp.Some? then stamp.value else row.value.version, row.value.cols + updates)), Updated)
  }

  // ---- Every interleaving ----

  datatype Event =
    | Read(writer: nat)
    | Write(writer: nat, updates: Columns, stamp: Option<int>)

  /** A successful write: which version it replaced, by which, and what it set. */
  datatype Success = Success(writer: nat, replaced: int, version: int, updates: Columns)

  datatype World = World(row: Option<Row>, seen: map<nat, Option<int>>, log: seq<Success>)

  function Seen(w: World, i: nat): Option<int> { if i in w.seen then w.seen[i] else None }

  function Step(w: World, e: Event): World {
    match e
    case Read(i) => w.(seen := w.seen[i := if w.row.Some? then Some(w.row.value.version) else None])
    case Write(i, updates, stamp) =>
      var (row', reply) := Update(w.row, updates, Seen(w, i), stamp);
      if reply.Updated? then
        w.(row := row', log := w.log + [Success(i, w.row.value.version, row'.value.version, updates)])
      else w
  }

  function Run(w: World, es: seq<Event>): World
    decreases |es|
  {
    if es == [] then w else Run(Step(w, es[0]), es[1..])
  }

  /** Every write stamps a version later than the row's current one: the clock has moved on. */
  predicate Stamped(w: World, e: Event) {
    e.Write? && w.row.Some? ==> e.stamp.Some? && w.row.value.version < e.stamp.value
  }

  predicate StampedRun(w: World, es: seq<Event>)
    decreases |es|
  {
    es == [] || (Stamped(w, es[0]) && StampedRun(Step(w, es[0]), es[1..]))
  }

  /** Strictly increasing stamps are enough for every success to advance. */
  lemma {:induction false} StampedRunAdvances(w: World, es: seq<Event>)
    requires StampedRun(w, es)
    ensures AdvancingRun(w, es)
    decreases |es|
  {
    if es != [] {
      StampedRunAdvances(Step(w, es[0]), es[1..]);
    }
  }

  function Replay(log: seq<Success>, cols: Columns): Columns {
    if log == [] then cols else Replay(log[..|log| - 1], cols) + log[|log| - 1].updates
  }

  /** The version the row carries once the first `i` logged writes are done. */
  function VersionBefore(log: seq<Success>, i: nat, origin: Row): int
    requires i <= |log|
  {
    if i == 0 then origin.version else log[i - 1].version
  }

  /** The log is a chain of versions from the row's first to its current one, and replaying it gives the row. */
  ghost predicate Chained(w: World, origin: Row) {
    && w.row.Some?
    && w.row.value.cols == Replay(w.log, origin.cols)
    && w.row.value.version == VersionBefore(w.log, |w.log|, origin)
    && (forall i :: 0 <= i < |w.log| ==> Link(w.log, i, origin))
  }

  /** Logged write `i` replaced the version that the writes before it had left, by a later one. */
  predicate Link(log: seq<Success>, i: nat, origin: Row)
    requires i < |log|
  {
    log[i].replaced == VersionBefore(log, i, origin) < log[i].version
  }

  lemma ChainedStep(w: World, e: Event, origin: Row)
    requires Chained(w, origin) && Stamped(w, e)
    ensures Chained(Step(w, e), origin)
  {
    ChainedStepIff(w, e, origin);
  }

  lemma ChainedSuccess(w: World, s: Success, origin: Row)
    requires Chained(w, origin) && s.replaced == w.row.value.version < s.version
    ensures Chained(w.(row := Some(Row(s.version, w.row.value.cols + s.updates)), log := w.log + [s]), origin)
  {
    var log' := w.log + [s];
    assert log'[..|w.log|] == w.log;
    forall i | 0 <= i < |log'| ensures Link(log', i, origin) {
      assert i < |w.log| ==> Link(w.log, i, origin);
    }
  }

  /** A write that succeeds stamps a later version than the row's. */
  predicate Advances(w: World, e: Event) {
    e.Write? && Update(w.row, e.updates, Seen(w, e.writer), e.stamp).1.Updated? ==>
      e.stamp.Some? && w.row.value.version < e.stamp.value
  }

  /** A step keeps the log a chain of increasing versions exactly when it does not succeed without advancing. */
  lemma ChainedStepIff(w: World, e: Event, origin: Row)
    requires Chained(w, origin)
    ensures Chained(Step(w, e), origin) <==> Advances(w, e)
  {
    if Step(w, e).log == w.log {
      assert Step(w, e).row == w.row;
    } else if Advances(w, e) {
      var s := Success(e.writer, w.row.value.version, e.stamp.value, e.updates);
      assert Step(w, e) == w.(row := Some(Row(s.version, w.row.value.cols + s.updates)), log := w.log + [s]);
      ChainedSuccess(w, s, origin);
    } else {
      assert !Link(Step(w, e).log, |w.log|, origin);
    }
  }

  predicate AdvancingRun(w: World, es: seq<Event>)
    decreases |es|
  {
    es == [] || (Advances(w, es[0]) && AdvancingRun(Step(w, es[0]), es[1..]))
  }

  ghost predicate ChainedThroughout(w: World, es: seq<Event>, origin: Row)
    decreases |es|
  {
    Chained(w, origin) && (es == [] || ChainedThroughout(Step(w, es[0]), es[1..], origin))
  }

  /** Over every interleaving the versions increase along the log throughout exactly when every successful write advances. */
  lemma {:induction false} ChainedThroughoutIff(w: World, es: seq<Event>, origin: Row)
    requires Chained(w, origin)
    ensures ChainedThroughout(w, es, origin) <==> AdvancingRun(w, es)
    decreases |es|
  {
    if es != [] {
      ChainedStepIff(w, es[0], origin);
      if Advances(w, es[0]) {
        ChainedThroughoutIff(Step(w, es[0]), es[1..], origin);
      }
    }
  }

  lemma {:induction false} VersionsIncrease(w: World, origin: Row, i: nat, j: nat)
    requires Chained(w, origin) && i < j < |w.log|
    ensures w.log[i].replaced < w.log[j].replaced
  {
    Replaces(w, origin, j);
    if i + 1 < j {
      VersionsIncrease(w, origin, i, j - 1);
    }
  }

  lemma Replaces(w: World, origin: Row, j: nat)
    requires Chained(w, origin) && 0 < j < |w.log|
    ensures w.log[j - 1].replaced < w.log[j].replaced
  {
    assert Link(w.log, j - 1, origin) && Link(w.log, j, origin);
  }

  /**
   With strictly increasing stamps, of all writers that read one version at most
   one succeeds, and the row is what the successful updates give in version order.
   */
  lemma {:induction false} OneWriterPerVersion(w: World, es: seq<Event>, origin: Row)
    requires Chained(w, origin) && AdvancingRun(w, es)
    ensures var w' := Run(w, es);
            && w'.row.Some? && w'.row.value.cols == Replay(w'.log, origin.cols)
            && (forall i, j :: 0 <= i < j < |w'.log| ==> w'.log[i].replaced < w'.log[j].replaced)
    decreases |es|
  {
    if es == [] {
      forall i, j | 0 <= i < j < |w.log| ensures w.log[i].replaced < w.log[j].replaced {
        VersionsIncrease(w, origin, i, j);
      }
    } else {
      ChainedStepIff(w, es[0], origin);
      OneWriterPerVersion(Step(w, es[0]), es[1..], origin);
    }
  }

  /** A writer that reads and then writes, with nothing in between, succeeds; the row gets its columns and its stamp. */
  lemma ReadThenWriteSucceeds(w: World, i: nat, updates: Columns, stamp: Option<int>)
    requires w.row.Some? && updates.Keys != {}
    ensures var w' := Step(Step(w, Read(i)), Write(i, updates, stamp));
            && w'.row.Some? && w'.row.value.cols == w.row.value.cols + updates
            && w'.row.value.version == (if stamp.Some? then stamp.value else w.row.value.version)
            && w'.log == w.log + [Success(i, w.row.value.version, w'.row.value.version, updates)]
  {}

  /** A writer succeeds exactly when the row still carries the version it read, and it replaces that version. */
  lemma SuccessMeansUnchanged(w: World, i: nat, updates: Columns, stamp: Option<int>)
    requires updates.Keys != {}
    ensures var w' := Step(w, Write(i, updates, stamp));
            (|w'.log| == |w.log| + 1 <==> w.row.Some? && Seen(w, i) == Some(w.row.value.version))
            && (|w'.log| == |w.log| + 1 ==> w'.log[|w.log|].replaced == Seen(w, i).value)
  {}

  /** Of two writers that read the row's version both succeed exactly when the first leaves that version in place. */
  lemma BothSucceedIff(w: World, first: Event, second: Event)
    requires first.Write? && second.Write? && first.updates.Keys != {} && second.updates.Keys != {}
    requires w.row.Some? && Seen(w, first.writer) == Seen(w, second.writer) == Some(w.row.value.version)
    ensures |Step(Step(w, first), second).log| == |w.log| + 2 <==> first.stamp in {None, Some(w.row.value.version)}
  {
    SuccessMeansUnchanged(w, first.writer, first.updates, first.stamp);
    SuccessMeansUnchanged(Step(w, first), second.writer, second.updates, second.stamp);
  }

  /**
   Only the updated_at column is stamped by the statement itself. With another
   version column that the updates do not set, two writers that read the same
   version both succeed and the first one's value is overwritten.
   */
  lemma UnstampedColumnLosesUpdates(v: int)
    ensures var w := World(Some(Row(v, map["salary" := 1])), map[1 := Some(v), 2 := Some(v)], []);
            var w' := Step(Step(w, Write(1, map["salary" := 2], None)), Write(2, map["salary" := 3], None));
            |w'.log| == 2 && w'.log[0].replaced == w'.log[1].replaced && w'.row.value.cols["salary"] == 3
  {
    var w := World(Some(Row(v, map["salary" := 1])), map[1 := Some(v), 2 := Some(v)], []);
    var w1 := Step(w, Write(1, map["salary" := 2], None));
    assert "salary" in map["salary" := 2].Keys && "salary" in map["salary" := 3].Keys;
    assert w1.row.value.version == v && w1.log == [Success(1, v, v, map["salary" := 2])];
  }

  // ---- Building the statement ----

  /** Placeholder `$n` of a SET clause, 1-based as in the SQL text. */
  datatype Clause = Clause(col: Column, placeholder: nat)

  /** What the server does with a SET list: each column takes the parameter its placeholder names. */
  function Bind(clauses: seq<Clause>, params: seq<int>): Columns
    requires forall i :: 0 <= i < |clauses| ==> 1 <= clauses[i].placeholder <= |params|
  {
    if clauses == [] then map[]
    else
      var c := clauses[|clauses| - 1];
      Bind(clauses[..|clauses| - 1], params)[c.col := params[c.placeholder - 1]]
  }

  function AsColumns(updates: seq<(Column, int)>): Columns {
    if updates == [] then map[]
    else AsColumns(updates[..|updates| - 1])[updates[|updates| - 1].0 := updates[|updates| - 1].1]
  }

  /** With no column given twice, as in a dictionary, every column holds what was given for it, and no other is set. */
  lemma {:induction false} AsColumnsIs(updates: seq<(Column, int)>, c: Column)
    requires forall i, j :: 0 <= i < j < |updates| ==> updates[i].0 != updates[j].0
    ensures c in AsColumns(updates) <==> exists i :: 0 <= i < |updates| && updates[i].0 == c
    ensures forall i :: 0 <= i < |updates| && updates[i].0 == c ==> AsColumns(updates)[c] == updates[i].1
  {
    if updates != [] {
      var n := |updates| - 1;
      AsColumnsIs(updates[..n], c);
      if exists i :: 0 <= i < |updates| && updates[i].0 == c {
        var i :| 0 <= i < |updates| && updates[i].0 == c;
        assert i < n ==> updates[..n][i].0 == c;
      }
      assert forall i :: 0 <= i < n ==> updates[..n][i] == updates[i];
    }
  }

  lemma {:induction false} BindIgnoresTail(clauses: seq<Clause>, params: seq<int>, more: seq<int>)
    requires forall i :: 0 <= i < |clauses| ==> 1 <= clauses[i].placeholder <= |params|
    ensures Bind(clauses, params + more) == Bind(clauses, params)
  {
    if clauses != [] {
      BindIgnoresTail(clauses[..|clauses| - 1], params, more);
    }
  }

  /** What the statement does to the version column: the caller's value, NOW() for updated_at, or nothing. */
  function Stamp(versionCol: Column, updates: Columns, now: int): Option<int> {
    if versionCol in updates then Some(updates[versionCol]) else if versionCol == "updated_at" then Some(now) else None
  }

  /** Two readers of one version both succeed only where the caller fails to advance a column the statement does not stamp. */
  lemma DefaultColumnExcludes(w: World, i: nat, j: nat, versionCol: Column, updates: Columns, second: Event, now: int)
    requires second.Write? && second.writer == j && updates.Keys != {} && second.updates.Keys != {}
    requires w.row.Some? && Seen(w, i) == Seen(w, j) == Some(w.row.value.version) && w.row.value.version < now
    ensures |Step(Step(w, Write(i, updates, Stamp(versionCol, updates, now))), second).log| == |w.log| + 2
       <==> (if versionCol in updates then updates[versionCol] == w.row.value.version else versionCol != "updated_at")
  {
    BothSucceedIff(w, Write(i, updates, Stamp(versionCol, updates, now)), second);
  }

  /** The versioned row of one table, and the statement optimistic_update sends for it. */
  class Record {
    var row: Option<Row>

    constructor (initial: Option<Row>)
      ensures row == initial
    {
      row := initial;
    }

    method ReadVersion() returns (version: Option<int>)
      ensures version == if row.Some? then Some(row.value.version) else None
    {
      version := if row.Some? then Some(row.value.version) else None;
    }

    method Execute(versionCol: Column, updates: seq<(Column, int)>, expected: Option<int>, now: int) returns (reply: Reply)
      modifies this
      ensures (row, reply) == Update(old(row), AsColumns(updates), expected, Stamp(versionCol, AsColumns(updates), now))
      ensures reply.Updated? && versionCol in AsColumns(updates) ==> row.value.version == AsColumns(updates)[versionCol]
      ensures reply.Updated? && versionCol !in AsColumns(updates) ==>
                row.value.version == if versionCol == "updated_at" then now else old(row).value.version
    {
      if updates == [] {
        return Skipped;
      }
      var clauses: seq<Clause> := [];
      var params: seq<int> := [];
      var idx := 1;
      for k := 0 to |updates|
        invariant row == old(row)
        invariant idx == |params| + 1 && |clauses| == |params| == k
        invariant forall i :: 0 <= i < |clauses| ==> 1 <= clauses[i].placeholder <= |params|
        invariant Bind(clauses, params) == AsColumns(updates[..k])
      {
        BindIgnoresTail(clauses, params, [updates[k].1]);
        assert (clauses + [Clause(updates[k].0, idx)])[..k] == clauses;
        assert updates[..k + 1][..k] == updates[..k];
        clauses := clauses + [Clause(updates[k].0, idx)];
        params := params + [updates[k].1];
        idx := idx + 1;
      }
      assert updates[..|updates|] == updates;
      assert updates[|updates| - 1].0 in AsColumns(updates).Keys;
      assert AsColumns(updates).Keys != {};
      if row.None? || expected.None? || row.value.version != expected.value {
        return Conflict;
      }
      var written := Bind(clauses, params);
      var version := row.value.version;
      if versionCol in written {
        version := written[versionCol];
      } else if versionCol == "updated_at" {
        version := now;
      }
      row := Some(Row(version, row.value.cols + written));
      reply := Updated;
    }
  }
}
