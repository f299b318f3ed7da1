/** The import stage: normalise the cleaned CSV rows, prepare the customer
    table, and insert the rows in batches of 500, each committed as a unit. */
module Importer {
  import opened Records
  import Text

  /** Rows per INSERT batch. */
  const BatchSize: nat := 500

  /** A cell of a yes/no column as the CSV reader delivers it: empty, text,
      or a number (the cleaned CSV already writes these columns as 1/0). */
  datatype Cell = Missing | Str(s: string) | Num(x: real)

  /** One row of the data frame read from the cleaned CSV. */
  datatype CsvRow = CsvRow(
    age: Option<int>,
    balance: Option<real>,
    housing: Cell,
    loan: Cell,
    campaign: Option<int>)

  /** The yes/no mapping as written: map({'yes': 1, 'no': 0}) then fillna(0).
      Every value other than the text "yes", numbers included, ends as 0. */
  function CategoricalAsWritten(v: Cell): (x: int)
    ensures IsFlag(x)
    ensures x == 1 <==> v == Str("yes")
  {
    match v
    case Str("yes") => 1
    case Str("no") => 0
    case _ => 0
  }

  /** The yes/no mapping corrected so that values already coded 1/0 by the
      cleaning stage survive; everything else still defaults to 0. */
  function Categorical(v: Cell): (x: int)
    ensures IsFlag(x)
    ensures x == 1 <==> v == Str("yes") || v == Num(1.0)
  {
    match v
    case Str("yes") => 1
    case Num(1.0) => 1
    case _ => 0
  }

  /** The cell the CSV reader produces for a flag written by the cleaning stage. */
  function FlagCell(x: int): Cell {
    Num(x as real)
  }

  /** A cleaned 1/0 flag read back as a number is lost by the mapping as
      written and kept by the corrected one. */
  lemma FlagRoundTrip(x: int)
    requires IsFlag(x)
    ensures Categorical(FlagCell(x)) == x
    ensures CategoricalAsWritten(FlagCell(x)) == 0
  {
  }

  /** Which yes/no mapping the import applies: the one at lines 32-33 as
      written, or the corrected one. */
  datatype Mapping = AsWritten | Corrected

  /** A yes/no cell under the chosen mapping. */
  function Flag(m: Mapping, v: Cell): (x: int)
    ensures IsFlag(x)
    ensures x == 1 <==> v == Str("yes") || (m == Corrected && v == Num(1.0))
  {
    match m
    case AsWritten => CategoricalAsWritten(v)
    case Corrected => Categorical(v)
  }

  /** import_to_database.py, lines 32-40: lenient normalisation of one row. Nothing is dropped: a
      missing number becomes 0, a present one is kept, and the flags are
      always 0 or 1. */
  function NormalizeRow(m: Mapping, r: CsvRow): (c: Customer)
    ensures IsFlag(c.housing) && IsFlag(c.loan)
    ensures c.age == (if r.age.Some? then r.age.value else 0)
    ensures c.balance == (if r.balance.Some? then r.balance.value else 0.0)
    ensures c.campaign == (if r.campaign.Some? then r.campaign.value else 0)
    ensures c.housing == 1 <==> r.housing == Str("yes") || (m == Corrected && r.housing == Num(1.0))
    ensures c.loan == 1 <==> r.loan == Str("yes") || (m == Corrected && r.loan == Num(1.0))
  {
    Customer(
      if r.age.Some? then r.age.value else 0,
      if r.balance.Some? then r.balance.value else 0.0,
      Flag(m, r.housing),
      Flag(m, r.loan),
      if r.campaign.Some? then r.campaign.value else 0)
  }

  /** The two mappings give the same row except, possibly, for the flags. */
  lemma MappingsDifferOnlyInFlags(r: CsvRow)
    ensures NormalizeRow(AsWritten, r) == NormalizeRow(Corrected, r).(
              housing := NormalizeRow(AsWritten, r).housing,
              loan := NormalizeRow(AsWritten, r).loan)
    ensures NormalizeRow(AsWritten, r).housing <= NormalizeRow(Corrected, r).housing
    ensures NormalizeRow(AsWritten, r).loan <= NormalizeRow(Corrected, r).loan
  {
  }

  /** The data frame after normalisation, row for row. */
  function NormalizeRows(m: Mapping, frame: seq<CsvRow>): (rows: seq<Customer>)
    ensures |rows| == |frame|
    ensures forall i :: 0 <= i < |frame| ==> rows[i] == NormalizeRow(m, frame[i])
  {
    seq(|frame|, i requires 0 <= i < |frame| => NormalizeRow(m, frame[i]))
  }

  /** import_to_database.py, lines 134-142: the loop that appends one tuple per row to data_tuples.
      No row is dropped, the order is the file order, and every flag is 0/1. */
  method BuildTuples(m: Mapping, frame: seq<CsvRow>) returns (tuples: seq<Customer>)
    ensures tuples == NormalizeRows(m, frame)
    ensures forall i :: 0 <= i < |tuples| ==> IsFlag(tuples[i].housing) && IsFlag(tuples[i].loan)
  {
    tuples := [];
    for i := 0 to |frame|
      invariant |tuples| == i
      invariant forall j :: 0 <= j < i ==> tuples[j] == NormalizeRow(m, frame[j])
    {
      tuples := tuples + [NormalizeRow(m, frame[i])];
    }
  }

  /** The slices data[i:i+500] for i in range(0, len(data), 500). */
  function Batches(data: seq<Customer>): (bs: seq<seq<Customer>>)
    ensures |bs| == (|data| + BatchSize - 1) / BatchSize
    ensures forall b :: 0 <= b < |bs| ==> 0 < |bs[b]| <= BatchSize
    ensures forall b :: 0 <= b < |bs| - 1 ==> |bs[b]| == BatchSize
    decreases |data|
  {
    if |data| == 0 then []
    else if |data| <= BatchSize then [data]
    else [data[..BatchSize]] + Batches(data[BatchSize..])
  }

  /** Batch b is exactly data[500 b : 500 b + 500]. */
  lemma {:induction false} BatchAt(data: seq<Customer>, b: nat)
    requires b < |Batches(data)|
    ensures b * BatchSize < |data|
    ensures Batches(data)[b] == data[b * BatchSize..Min(b * BatchSize + BatchSize, |data|)]
    decreases |data|
  {
    if b > 0 {
      var rest := data[BatchSize..];
      BatchAt(rest, b - 1);
      assert Batches(data)[b] == Batches(rest)[b - 1];
      assert rest[(b - 1) * BatchSize..Min((b - 1) * BatchSize + BatchSize, |rest|)]
          == data[b * BatchSize..Min(b * BatchSize + BatchSize, |data|)];
    }
  }

  function Flatten(bs: seq<seq<Customer>>): seq<Customer> {
    if bs == [] then [] else bs[0] + Flatten(bs[1..])
  }

  lemma {:induction false} FlattenAppend(bs: seq<seq<Customer>>, b: seq<Customer>)
    ensures Flatten(bs + [b]) == Flatten(bs) + b
  {
    if bs != [] {
      assert (bs + [b])[1..] == bs[1..] + [b];
      FlattenAppend(bs[1..], b);
    }
  }

  /** The first k batches together are the first min(500 k, N) rows; in
      particular all batches together are the data. */
  lemma {:induction false} BatchesPrefix(data: seq<Customer>, k: nat)
    requires k <= |Batches(data)|
    ensures Flatten(Batches(data)[..k]) == data[..Min(k * BatchSize, |data|)]
  {
    if k > 0 {
      BatchesPrefix(data, k - 1);
      BatchAt(data, k - 1);
      assert Batches(data)[..k] == Batches(data)[..k - 1] + [Batches(data)[k - 1]];
      FlattenAppend(Batches(data)[..k - 1], Batches(data)[k - 1]);
      assert Min((k - 1) * BatchSize, |data|) == (k - 1) * BatchSize;
    }
  }

  lemma BatchesCoverData(data: seq<Customer>)
    ensures Flatten(Batches(data)) == data
  {
    var n := |Batches(data)|;
    BatchesPrefix(data, n);
    assert Batches(data)[..n] == Batches(data);
    assert n * BatchSize >= |data|;
  }

  /** The reply to "drop and recreate?" after .strip().lower(): only a
      three-letter answer once stripped can ask for it. */
  predicate WantsRecreate(answer: string)
    ensures WantsRecreate(answer) ==> |Text.Strip(answer)| == 3
  {
    Text.Lower(Text.Strip(answer)) == "yes"
  }

  /** The table is recreated exactly when the trimmed answer is "yes" in any
      mix of upper and lower case. */
  lemma RecreateAnswers(answer: string)
    ensures WantsRecreate(answer) <==>
      var t := Text.Strip(answer);
      |t| == 3 && (t[0] == 'y' || t[0] == 'Y') && (t[1] == 'e' || t[1] == 'E') && (t[2] == 's' || t[2] == 'S')
  {
    var t := Text.Strip(answer);
    var l := Text.Lower(t);
    if |t| == 3 {
      assert l == [l[0], l[1], l[2]];
      assert "yes" == ['y', 'e', 's'];
    }
  }

  /** An injected failure: the INSERT of batch `batch` raises an error after
      the server has taken `written` of its rows. */
  datatype Fault = NoFault | FailAt(batch: nat, written: nat)

  /** Whether the fault hits one of the batches of n rows. */
  predicate Hits(fault: Fault, n: nat) {
    fault.FailAt? && fault.batch * BatchSize < n
  }

  /** The customer table of one connection: whether it exists, the committed
      rows in insertion order, and the rows inserted by the open transaction. */
  class CustomerTable {
    var present: bool
    var rows: seq<Customer>
    var pending: seq<Customer>

    ghost predicate Valid()
      reads this
    {
      !present ==> rows == [] && pending == []
    }

    constructor (present: bool, rows: seq<Customer>)
      requires present || rows == []
      ensures Valid() && this.present == present && this.rows == rows && pending == []
    {
      this.present := present;
      this.rows := rows;
      this.pending := [];
    }

    /** CREATE TABLE, with DROP TABLE first when it exists: an empty table. */
    method Recreate()
      requires Valid() && pending == []
      modifies this
      ensures Valid() && present && rows == [] && pending == []
    {
      present := true;
      rows := [];
    }

    /** import_to_database.py, lines 101-116: create the table when absent; when present, recreate it
        empty on a "yes" and otherwise keep its rows so the import appends. */
    method Prepare(answer: string) returns (recreated: bool)
      requires Valid() && pending == []
      modifies this
      ensures Valid() && present && pending == []
      ensures recreated <==> old(present) && WantsRecreate(answer)
      ensures rows == if old(present) && !WantsRecreate(answer) then old(rows) else []
    {
      recreated := false;
      if present {
        if WantsRecreate(answer) {
          Recreate();
          recreated := true;
        }
      } else {
        Recreate();
      }
    }

    /** executemany for one batch; with failAfter = Some(w) the server raises an
        error after taking the first w rows of the batch. */
    method InsertBatch(batch: seq<Customer>, failAfter: Option<nat>) returns (ok: bool)
      requires Valid() && present
      modifies this`pending
      ensures Valid()
      ensures ok <==> failAfter.None?
      ensures pending == old(pending) + if ok then batch else batch[..Min(failAfter.value, |batch|)]
    {
      match failAfter
      case None =>
        pending := pending + batch;
        ok := true;
      case Some(w) =>
        pending := pending + batch[..Min(w, |batch|)];
        ok := false;
    }

    /** conn.commit(): the open transaction's rows become part of the table. */
    method Commit()
      requires Valid() && present
      modifies this
      ensures Valid() && present
      ensures rows == old(rows) + old(pending) && pending == []
    {
      rows := rows + pending;
      pending := [];
    }

    /** conn.rollback(): the open transaction's rows are discarded. */
    method Rollback()
      requires Valid()
      modifies this`pending
      ensures Valid()
      ensures rows == old(rows) && pending == []
    {
      pending := [];
    }

    /** import_to_database.py, lines 144-170: insert data_tuples in batches of 500, committing after
        each. On success all rows are committed after the old ones; when batch
        k fails, exactly the batches before k stay committed. */
    method ImportTuples(data: seq<Customer>, fault: Fault) returns (inserted: nat, ok: bool)
      requires Valid() && present && pending == []
      modifies this
      ensures Valid() && present && pending == []
      ensures ok <==> !Hits(fault, |data|)
      ensures ok ==> inserted == |data|
      ensures !ok ==> inserted == fault.batch * BatchSize < |data|
      ensures rows == old(rows) + data[..inserted]
    {
      var total := |data|;
      inserted := 0;
      ok := true;
      var i := 0;
      while i < total
        invariant i % BatchSize == 0
        invariant inserted == Min(i, total)
        invariant Valid() && present && pending == []
        invariant rows == old(rows) + data[..inserted]
        invariant !(fault.FailAt? && fault.batch < i / BatchSize)
      {
        var batch := data[i..Min(i + BatchSize, total)];
        var failAfter := if fault.FailAt? && fault.batch == i / BatchSize then Some(fault.written) else None;
        ok := InsertBatch(batch, failAfter);
        if !ok {
          Rollback();
          return;
        }
        Commit();
        assert data[..inserted] + batch == data[..Min(i + BatchSize, total)];
        inserted := inserted + |batch|;
        i := i + BatchSize;
      }
      assert !(fault.FailAt? && fault.batch * BatchSize < total);
    }

    /** The import script end to end, after the CSV is read: prepare the
        table, build data_tuples with the mapping m, insert them in batches.
        The script as written is Run(AsWritten, ...). */
    method Run(m: Mapping, frame: seq<CsvRow>, answer: string, fault: Fault) returns (inserted: nat, ok: bool)
      requires Valid() && pending == []
      modifies this
      ensures Valid() && present && pending == []
      ensures ok <==> !Hits(fault, |frame|)
      ensures ok ==> inserted == |frame|
      ensures !ok ==> inserted == fault.batch * BatchSize < |frame|
      ensures rows == (if old(present) && !WantsRecreate(answer) then old(rows) else [])
                      + NormalizeRows(m, frame)[..inserted]
    {
      var _ := Prepare(answer);
      var tuples := BuildTuples(m, frame);
      inserted, ok := ImportTuples(tuples, fault);
    }
  }

  /** Committed rows after a failed batch k: the first k batches and no row of
      batch k. */
  lemma FailedImportKeepsEarlierBatches(data: seq<Customer>, k: nat)
    requires k * BatchSize < |data|
    ensures k < |Batches(data)|
    ensures data[..k * BatchSize] == Flatten(Batches(data)[..k])
  {
    BatchesPrefix(data, k);
  }
}
