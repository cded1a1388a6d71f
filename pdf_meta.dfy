// Product code and revision from a PDF file name of the form
// {product code}_{revision}_{kind}.pdf, e.g. B00329010_0_S.pdf.
// The pattern is ^(B\d{6,9})_(\d+)_ matched case-insensitively; it is
// written out here as a scan over digit runs.

module PdfMeta {
  import opened Util

  datatype Meta = Meta(docVersion: string, productCode: string)

  predicate AllDigits(s: string) {
    forall j :: 0 <= j < |s| ==> IsDigit(s[j])
  }

  /** Length of the run of digits starting at i. */
  function DigitRun(s: string, i: nat): (n: nat)
    requires i <= |s|
    ensures i + n <= |s|
    ensures forall j :: i <= j < i + n ==> IsDigit(s[j])
    ensures i + n < |s| ==> !IsDigit(s[i + n])
    decreases |s| - i
  {
    if i < |s| && IsDigit(s[i]) then 1 + DigitRun(s, i + 1) else 0
  }

  /** A B-code with 6 to 9 digits (the letter in either case) and a non-empty digit revision. */
  predicate WellFormed(m: Meta) {
    && 7 <= |m.productCode| <= 10
    && (m.productCode[0] == 'B' || m.productCode[0] == 'b')
    && AllDigits(m.productCode[1..])
    && m.docVersion != []
    && AllDigits(m.docVersion)
  }

  function Prefix(m: Meta): string {
    m.productCode + "_" + m.docVersion + "_"
  }

  /** The metadata a file name carries, or None (an empty dict) when it does not match. */
  function ParsePdfMeta(name: string): (r: Option<Meta>)
    ensures r.Some? ==> WellFormed(r.value) && StartsWith(name, Prefix(r.value))
  {
    if |name| == 0 || !(name[0] == 'B' || name[0] == 'b') then None
    else
      var n := DigitRun(name, 1);
      if n < 6 || n > 9 || 1 + n >= |name| || name[1 + n] != '_' then None
      else
        var m := DigitRun(name, 2 + n);
        if m == 0 || 2 + n + m >= |name| || name[2 + n + m] != '_' then None
        else
          var meta := Meta(name[2 + n..2 + n + m], name[..1 + n]);
          assert Prefix(meta) == name[..3 + n + m];
          Some(meta)
  }

  lemma DigitRunExact(s: string, i: nat, k: nat)
    requires i + k < |s|
    requires forall j :: i <= j < i + k ==> IsDigit(s[j])
    requires !IsDigit(s[i + k])
    ensures DigitRun(s, i) == k
  {
  }

  /** Where the code, the revision and the two underscores sit in a prefixed name. */
  lemma PrefixLayout(m: Meta, rest: string)
    requires WellFormed(m)
    ensures var name := Prefix(m) + rest;
      var c := |m.productCode|;
      var v := |m.docVersion|;
      && c + v + 2 <= |name|
      && name[0] == m.productCode[0]
      && (forall j :: 1 <= j < c ==> IsDigit(name[j]))
      && name[c] == '_'
      && (forall j :: c + 1 <= j < c + 1 + v ==> IsDigit(name[j]))
      && name[c + 1 + v] == '_'
      && name[..c] == m.productCode
      && name[c + 1..c + 1 + v] == m.docVersion
  {
    var name := Prefix(m) + rest;
    var c := |m.productCode|;
    assert forall j :: 1 <= j < c ==> name[j] == m.productCode[1..][j - 1];
    assert forall j :: c + 1 <= j < c + 1 + |m.docVersion| ==> name[j] == m.docVersion[j - c - 1];
  }

  /** Every name that starts with a well-formed code and revision is parsed to exactly those. */
  lemma ParseComplete(m: Meta, rest: string)
    requires WellFormed(m)
    ensures ParsePdfMeta(Prefix(m) + rest) == Some(m)
  {
    var name := Prefix(m) + rest;
    var c := |m.productCode|;
    var v := |m.docVersion|;
    PrefixLayout(m, rest);
    DigitRunExact(name, 1, c - 1);
    DigitRunExact(name, c + 1, v);
  }

  lemma ParseExample()
    ensures ParsePdfMeta("B00329010_0_S.pdf") == Some(Meta("0", "B00329010"))
  {
    var m := Meta("0", "B00329010");
    assert Prefix(m) + "S.pdf" == "B00329010_0_S.pdf";
    ParseComplete(m, "S.pdf");
  }

  /** Five digits are too few for a product code. */
  lemma ShortCodeRejected()
    ensures ParsePdfMeta("B12345_0_S.pdf") == None
  {
    assert DigitRun("B12345_0_S.pdf", 6) == 0;
    assert DigitRun("B12345_0_S.pdf", 1) == 5;
  }
}
