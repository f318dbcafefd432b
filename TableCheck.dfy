/**
  The advisory table-number check (`validateTableNumber`). A missing or blank
  `table_number` is refused with 422; otherwise the answer is 200 and the
  table number, trimmed and upper-cased, is called valid when it is non-empty
  and at most 10 bytes long (PHP `strlen` counts bytes).

  The code tests non-emptiness with PHP's `empty`, which is also true of the
  string "0": `ValidateTableNumberAsWritten` models that, and
  `ValidateTableNumber` is the check as evidently intended.
 */
module TableCheck {
  import opened Wrappers
  import opened Text

  const MaxTableNumberBytes := 10

  /** The reply: HTTP status and the `valid` flag. */
  datatype TableReply = TableReply(status: int, valid: bool)

  /** PHP `empty` on a string: true of "" and of "0". */
  predicate PhpEmpty(s: string) {
    s == "" || s == "0"
  }

  /** `validateTableNumber` as the code has it, with `!empty(...)`. */
  function ValidateTableNumberAsWritten(raw: Option<string>): (r: TableReply)
    ensures r.status == 422 <==> !Present(raw)
    ensures r.status == 422 || r.status == 200
    ensures r.status == 200 ==>
              (r.valid <==> !PhpEmpty(Normalize(raw.value)) && ByteLength(Normalize(raw.value)) <= MaxTableNumberBytes)
    ensures r.status == 422 ==> !r.valid
  {
    if !Present(raw) then TableReply(422, false)
    else
      var t := Normalize(raw.value);
      TableReply(200, !PhpEmpty(t) && ByteLength(t) <= MaxTableNumberBytes)
  }

  /** The table number "0" passes `required` yet is reported invalid. */
  lemma ZeroTableIsRejected()
    ensures ValidateTableNumberAsWritten(Some("0")) == TableReply(200, false)
    ensures ValidateTableNumber(Some("0")) == TableReply(200, true)
  {
    ZeroIsNormal();
    assert !IsTrimmable('0');
    assert Present(Some("0"));
  }

  /** "0" is left alone by the normalisation and is one byte long. */
  lemma ZeroIsNormal()
    ensures Trim("0") == "0" && Normalize("0") == "0" && ByteLength("0") == 1
  {
    assert TrimLeft("0") == "0";
    assert TrimRight("0") == "0";
    assert Upper("0") == [UpperChar('0')] + Upper([]);
  }

  /** `validateTableNumber` with the non-emptiness test it evidently intends. */
  function ValidateTableNumber(raw: Option<string>): (r: TableReply)
    ensures r.status == 422 <==> !Present(raw)
    ensures r.status == 200 ==> (r.valid <==> 0 < |Normalize(raw.value)| && ByteLength(Normalize(raw.value)) <= MaxTableNumberBytes)
    ensures r.status == 422 ==> !r.valid
  {
    if !Present(raw) then TableReply(422, false)
    else
      var t := Normalize(raw.value);
      TableReply(200, t != "" && ByteLength(t) <= MaxTableNumberBytes)
  }

  /** Once `required` holds, validity depends only on the byte length, which for
      an ASCII table number is its number of characters. */
  lemma ValidTableIsShortEnough(raw: Option<string>)
    requires Present(raw)
    ensures ValidateTableNumber(raw).valid <==> ByteLength(Normalize(raw.value)) <= MaxTableNumberBytes
    ensures (forall i :: 0 <= i < |raw.value| ==> raw.value[i] as int < 0x80) ==>
              (ValidateTableNumber(raw).valid <==> |Trim(raw.value)| <= MaxTableNumberBytes)
  {
    if forall i :: 0 <= i < |raw.value| ==> raw.value[i] as int < 0x80 {
      NormalizedAsciiLength(raw.value);
    }
  }

  /** The normalised form of an ASCII string takes one byte per character
      of the trimmed string. */
  lemma NormalizedAsciiLength(s: string)
    requires forall i :: 0 <= i < |s| ==> s[i] as int < 0x80
    ensures ByteLength(Normalize(s)) == |Trim(s)|
  {
    var t := Trim(s);
    TrimIsAscii(s);
    var u := Upper(t);
    assert forall i :: 0 <= i < |u| ==> u[i] as int < 0x80 by {
      forall i | 0 <= i < |u| ensures u[i] as int < 0x80 {
        assert u[i] == UpperChar(t[i]);
      }
    }
    assert Normalize(s) == u;
  }

  lemma TrimIsAscii(s: string)
    requires forall i :: 0 <= i < |s| ==> s[i] as int < 0x80
    ensures forall i :: 0 <= i < |Trim(s)| ==> Trim(s)[i] as int < 0x80
  {
    var l := TrimLeft(s);
    assert forall i :: 0 <= i < |l| ==> l[i] == s[|s| - |l| + i];
  }
}
