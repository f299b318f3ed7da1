/** The cleaning stage: select the five columns of the raw bank extract, map
    the yes/no columns to 1/0, drop every row with a missing value, and keep
    the surviving rows in their input order. */
module Cleaner {
  import opened Records

  /** One line of the raw extract, reduced to the five columns that are kept.
      None stands for an empty (NaN) cell; the other columns of the extract
      are discarded by the column selection and are not represented. */
  datatype RawRecord = RawRecord(
    age: Option<int>,
    balance: Option<real>,
    housing: Option<string>,
    loan: Option<string>,
    campaign: Option<int>)

  /** The dictionary map {'yes': 1, 'no': 0}: an exact, case-sensitive match;
      any other text, and an empty cell, comes out missing. */
  function YesNo(v: Option<string>): (r: Option<int>)
    ensures r == Some(1) <==> v == Some("yes")
    ensures r == Some(0) <==> v == Some("no")
    ensures r.None? <==> v != Some("yes") && v != Some("no")
  {
    if v == Some("yes") then Some(1)
    else if v == Some("no") then Some(0)
    else None
  }

  /** A row that dropna keeps: every field present once yes/no is mapped. */
  predicate Complete(r: RawRecord) {
    && r.age.Some?
    && r.balance.Some?
    && (r.housing == Some("yes") || r.housing == Some("no"))
    && (r.loan == Some("yes") || r.loan == Some("no"))
    && r.campaign.Some?
  }

  /** One row through map, dropna and astype: present exactly when the row is
      complete, with the numbers unchanged and the flags coded 1 for "yes". */
  function CleanRow(r: RawRecord): (c: Option<Customer>)
    ensures c.Some? <==> Complete(r)
    ensures c.Some? ==> c.value.age == r.age.value && c.value.balance == r.balance.value
                        && c.value.campaign == r.campaign.value
    ensures c.Some? ==> IsFlag(c.value.housing) && (c.value.housing == 1 <==> r.housing == Some("yes"))
    ensures c.Some? ==> IsFlag(c.value.loan) && (c.value.loan == 1 <==> r.loan == Some("yes"))
  {
    var housing := YesNo(r.housing);
    var loan := YesNo(r.loan);
    if r.age.Some? && r.balance.Some? && housing.Some? && loan.Some? && r.campaign.Some? then
      Some(Customer(r.age.value, r.balance.value, housing.value, loan.value, r.campaign.value))
    else
      None
  }

  /** The whole cleaning stage over the rows of the extract. */
  function Clean(rows: seq<RawRecord>): (out: seq<Customer>)
    ensures |out| <= |rows|
    ensures forall k :: 0 <= k < |out| ==> IsFlag(out[k].housing) && IsFlag(out[k].loan)
  {
    if rows == [] then []
    else
      match CleanRow(rows[0])
      case Some(c) => [c] + Clean(rows[1..])
      case None => Clean(rows[1..])
  }

  /** A single row is kept, cleaned, exactly when it is complete. */
  lemma CleanOne(r: RawRecord)
    ensures Clean([r]) == if Complete(r) then [CleanRow(r).value] else []
  {
    assert [r][1..] == [];
  }

  /** Cleaning distributes over concatenation: rows are judged one at a time
      and the survivors keep their relative order. */
  lemma {:induction false} CleanAppend(a: seq<RawRecord>, b: seq<RawRecord>)
    ensures Clean(a + b) == Clean(a) + Clean(b)
  {
    if a == [] {
      assert a + b == b;
    } else {
      assert (a + b)[0] == a[0] && (a + b)[1..] == a[1..] + b;
      CleanAppend(a[1..], b);
    }
  }

  /** A row in the middle of the input survives, in its place, exactly when it
      is complete. */
  lemma KeptInPlace(before: seq<RawRecord>, r: RawRecord, after: seq<RawRecord>)
    ensures Clean(before + [r] + after)
         == Clean(before) + (if Complete(r) then [CleanRow(r).value] else []) + Clean(after)
  {
    CleanAppend(before + [r], after);
    CleanAppend(before, [r]);
    CleanOne(r);
  }

  /** A value other than the exact lower-case "yes"/"no" drops the row, even
      when it differs only in case. */
  lemma CaseVariantDropsRow(r: RawRecord)
    requires r.housing == Some("Yes") || r.loan == Some("NO")
    ensures Clean([r]) == []
  {
    assert "Yes" != "yes" && "NO" != "no";
  }
}
