/** The cleaning stage feeding the import stage: the cleaned CSV is written
    with the flags already coded 1/0 and read back by the importer. */
module Pipeline {
  import opened Records
  import Cleaner
  import Importer

  /** How the importer's CSV reader sees a row the cleaning stage wrote. */
  function ReadBack(c: Customer): Importer.CsvRow {
    Importer.CsvRow(Some(c.age), Some(c.balance), Importer.FlagCell(c.housing),
                    Importer.FlagCell(c.loan), Some(c.campaign))
  }

  function ReadBackAll(cs: seq<Customer>): (frame: seq<Importer.CsvRow>)
    ensures |frame| == |cs|
  {
    seq(|cs|, i requires 0 <= i < |cs| => ReadBack(cs[i]))
  }

  /** With the corrected mapping, importing the cleaned file stores exactly
      the cleaned rows, in order. */
  lemma CleanedRowsImportUnchanged(raw: seq<Cleaner.RawRecord>)
    ensures Importer.NormalizeRows(Importer.Corrected, ReadBackAll(Cleaner.Clean(raw))) == Cleaner.Clean(raw)
  {
    var cs := Cleaner.Clean(raw);
    forall i | 0 <= i < |cs|
      ensures Importer.NormalizeRow(Importer.Corrected, ReadBackAll(cs)[i]) == cs[i]
    {
      Importer.FlagRoundTrip(cs[i].housing);
      Importer.FlagRoundTrip(cs[i].loan);
    }
  }

  /** With the mapping as written, every tuple built from the cleaned file has
      housing = 0 and loan = 0, whatever the extract said; the other fields
      are the cleaned ones. */
  lemma AsWrittenImportZeroesFlags(raw: seq<Cleaner.RawRecord>)
    ensures forall i :: 0 <= i < |Cleaner.Clean(raw)| ==>
              Importer.NormalizeRows(Importer.AsWritten, ReadBackAll(Cleaner.Clean(raw)))[i]
              == Cleaner.Clean(raw)[i].(housing := 0, loan := 0)
  {
    var cs := Cleaner.Clean(raw);
    forall i | 0 <= i < |cs|
      ensures Importer.NormalizeRow(Importer.AsWritten, ReadBackAll(cs)[i]) == cs[i].(housing := 0, loan := 0)
    {
      Importer.FlagRoundTrip(cs[i].housing);
      Importer.FlagRoundTrip(cs[i].loan);
    }
  }

  /** Two extract rows: the first has a housing loan, and the importer as
      written stores it without one. */
  lemma TwoRowExample()
    ensures Cleaner.Clean([
              Cleaner.RawRecord(Some(30), Some(1000.0), Some("yes"), Some("no"), Some(2)),
              Cleaner.RawRecord(Some(45), Some(-500.0), Some("no"), Some("yes"), Some(1))])
         == [Customer(30, 1000.0, 1, 0, 2), Customer(45, -500.0, 0, 1, 1)]
    ensures Importer.NormalizeRow(Importer.AsWritten, ReadBack(Customer(30, 1000.0, 1, 0, 2)))
         == Customer(30, 1000.0, 0, 0, 2)
    ensures Importer.NormalizeRow(Importer.Corrected, ReadBack(Customer(30, 1000.0, 1, 0, 2)))
         == Customer(30, 1000.0, 1, 0, 2)
  {
    var a := Cleaner.RawRecord(Some(30), Some(1000.0), Some("yes"), Some("no"), Some(2));
    var b := Cleaner.RawRecord(Some(45), Some(-500.0), Some("no"), Some("yes"), Some(1));
    assert [a, b][1..] == [b];
    assert Cleaner.Clean([b]) == [Customer(45, -500.0, 0, 1, 1)];
  }
}
