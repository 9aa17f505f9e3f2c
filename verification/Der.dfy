/**
 The DER reader of pem_extract_pubkey.py and the extraction of an RSA modulus from a decoded private key.
 Elements are definite-length TLV triples with one-octet tags (section 8.1 of ITU-T X.690).
 */
module Der {
  import opened Common

  type byte = n: int | 0 <= n < 256

  const SEQUENCE: byte := 0x30
  const INTEGER: byte := 0x02

  /** An element as the reader returns it: length is what was declared, data what was there. */
  datatype Element = Element(tag: byte, length: nat, data: seq<byte>)

  /** IndexError, and the PEMErrors of the reader and of pem_get_mod. */
  datatype Error = OutOfData | Indefinite | NotASequence | BadVersion | BadModulus | BadKeySize | BadExponent

  type Parsed<T> = Result<(T, nat), Error>

  // ---------------------------------------------------------------------------------------------
  // Reading at an index

  function ByteAt(data: seq<byte>, idx: nat): Parsed<byte> {
    if idx < |data| then Success((data[idx], idx + 1)) else Failure(OutOfData)
  }

  function Octets(data: seq<byte>, idx: nat, count: nat, total: nat): Parsed<nat>
    decreases |data| - idx
  {
    if count == 0 then Success((total, idx))
    else if idx < |data| then Octets(data, idx + 1, count - 1, total * 256 + data[idx])
    else Failure(OutOfData)
  }

  function LengthAt(data: seq<byte>, idx: nat): Parsed<nat> {
    if idx >= |data| then Failure(OutOfData)
    else if data[idx] == 0x80 then Failure(Indefinite)
    else if data[idx] >= 0x80 then Octets(data, idx + 1, data[idx] - 0x80, 0)
    else Success((data[idx] as nat, idx + 1))
  }

  /** Python's data[from:from + length], which stops at the end. */
  function Slice(data: seq<byte>, from: nat, length: nat): seq<byte> {
    if from >= |data| then [] else data[from..Min(from + length, |data|)]
  }

  function ElementAt(data: seq<byte>, idx: nat): Parsed<Element> {
    if idx >= |data| then Failure(OutOfData)
    else
      match LengthAt(data, idx + 1)
      case Success((length, from)) => Success((Element(data[idx], length, Slice(data, from, length)), from + length))
      case Failure(e) => Failure(e)
  }

  /** The class DER: its data and its index. A failed read raises, so the index matters after a success only. */
  class Reader {
    const data: seq<byte>
    var idx: nat

    constructor (data: seq<byte>)
      ensures this.data == data && idx == 0
    {
      this.data, idx := data, 0;
    }

    method GetByte() returns (r: Result<byte, Error>)
      modifies this`idx
      ensures match ByteAt(data, old(idx))
        case Success((b, next)) => r == Success(b) && idx == next
        case Failure(e) => r == Failure(e) && idx == old(idx)
    {
      if idx >= |data| { return Failure(OutOfData); }
      r := Success(data[idx]);
      idx := idx + 1;
    }

    method GetLen() returns (r: Result<nat, Error>)
      modifies this`idx
      ensures match LengthAt(data, old(idx))
        case Success((n, next)) => r == Success(n) && idx == next
        case Failure(e) => r == Failure(e)
    {
      var octet := GetByte();
      if octet.Failure? { return Failure(octet.error); }
      if octet.value == 0x80 { return Failure(Indefinite); }
      if octet.value < 0x80 { return Success(octet.value); }
      var count := octet.value - 0x80;
      var total: nat := 0;
      for i := 0 to count
        invariant idx <= |data|
        invariant Octets(data, idx, count - i, total) == LengthAt(data, old(idx))
      {
        octet := GetByte();
        if octet.Failure? { return Failure(octet.error); }
        total := total * 256 + octet.value;
      }
      r := Success(total);
    }

    method GetTag() returns (r: Result<Element, Error>)
      modifies this`idx
      ensures match ElementAt(data, old(idx))
        case Success((e, next)) => r == Success(e) && idx == next
        case Failure(e) => r == Failure(e)
    {
      var tag := GetByte();
      if tag.Failure? { return Failure(tag.error); }
      var length := GetLen();
      if length.Failure? { return Failure(length.error); }
      r := Success(Element(tag.value, length.value, Slice(data, idx, length.value)));
      idx := idx + length.value;
    }
  }

  // ---------------------------------------------------------------------------------------------
  // Writing

  /** Most significant byte first. */
  function Number(s: seq<byte>): nat {
    if |s| == 0 then 0 else Number(s[..|s| - 1]) * 256 + s[|s| - 1]
  }

  /** Short form, or long form with its length octets, leading zeros allowed. */
  datatype Form = Short | Long(octets: seq<byte>)

  predicate Fits(form: Form, length: nat) {
    match form
    case Short => length < 0x80
    case Long(octets) => 1 <= |octets| < 0x80 && Number(octets) == length
  }

  function EncodedLength(form: Form, length: nat): (s: seq<byte>)
    requires Fits(form, length)
    ensures |s| >= 1
  {
    match form
    case Short => [length]
    case Long(octets) => [0x80 + |octets|] + octets
  }

  function Encoded(tag: byte, content: seq<byte>, form: Form): (s: seq<byte>)
    requires Fits(form, |content|)
    ensures |s| == 1 + |EncodedLength(form, |content|)| + |content|
  {
    [tag] + EncodedLength(form, |content|) + content
  }

  // ---------------------------------------------------------------------------------------------
  // Round trips

  /** The length octets that are there are read as their number. */
  lemma {:induction false} OctetsRead(data: seq<byte>, idx: nat, k: nat)
    requires idx + k <= |data|
    ensures Octets(data, idx, k, 0) == Success((Number(data[idx..idx + k]), idx + k))
  {
    if k == 0 {
    } else {
      OctetsSnoc(data, idx, k, 0);
      OctetsRead(data, idx, k - 1);
      assert data[idx..idx + k][..k - 1] == data[idx..idx + k - 1];
    }
  }

  lemma {:induction false} OctetsSnoc(data: seq<byte>, idx: nat, k: nat, total: nat)
    requires k > 0 && idx + k <= |data|
    ensures Octets(data, idx, k - 1, total).Success?
    ensures var before := Octets(data, idx, k - 1, total).value.0;
      Octets(data, idx, k, total) == Success((before * 256 + data[idx + k - 1], idx + k))
    decreases k
  {
    if k > 1 {
      OctetsSnoc(data, idx + 1, k - 1, total * 256 + data[idx]);
    } else {
      assert Octets(data, idx, 0, total) == Success((total, idx));
      assert Octets(data, idx + 1, 0, total * 256 + data[idx]) == Success((total * 256 + data[idx], idx + 1));
    }
  }

  lemma SplitHead<T>(data: seq<T>, idx: nat, head: T, tail: seq<T>)
    requires idx + 1 + |tail| <= |data| && data[idx..idx + 1 + |tail|] == [head] + tail
    ensures data[idx] == head && data[idx + 1..idx + 1 + |tail|] == tail
  {
    var s := data[idx..idx + 1 + |tail|];
    assert data[idx] == s[0] && data[idx + 1..idx + 1 + |tail|] == s[1..];
  }

  lemma LengthOfEncoded(data: seq<byte>, idx: nat, form: Form, length: nat)
    requires Fits(form, length)
    requires var e := EncodedLength(form, length); idx + |e| <= |data| && data[idx..idx + |e|] == e
    ensures LengthAt(data, idx) == Success((length, idx + |EncodedLength(form, length)|))
  {
    match form
    case Short =>
      assert data[idx] == data[idx..idx + 1][0];
    case Long(octets) =>
      SplitHead(data, idx, 0x80 + |octets|, octets);
      LongFormRead(data, idx, |octets|);
  }

  lemma LongFormRead(data: seq<byte>, idx: nat, k: nat)
    requires k > 0 && idx + 1 + k <= |data| && data[idx] == 0x80 + k
    ensures LengthAt(data, idx) == Success((Number(data[idx + 1..idx + 1 + k]), idx + 1 + k))
  {
    OctetsRead(data, idx + 1, k);
  }

  /** Every length has a long form. */
  lemma {:induction false} LongOctets(length: nat) returns (octets: seq<byte>)
    ensures |octets| > 0 && Number(octets) == length
  {
    if length < 256 {
      octets := [length];
      assert octets[..0] == [];
    } else {
      var front := LongOctets(length / 256);
      octets := front + [length % 256];
      assert octets[..|front|] == front;
    }
  }

  lemma ElementAfterLength(data: seq<byte>, idx: nat, from: nat, content: seq<byte>)
    requires idx < |data| && LengthAt(data, idx + 1) == Success((|content|, from))
    requires from + |content| <= |data| && data[from..from + |content|] == content
    ensures ElementAt(data, idx) == Success((Element(data[idx], |content|, content), from + |content|))
  {
  }

  lemma SplitElement<T>(data: seq<T>, idx: nat, tag: T, l: seq<T>, content: seq<T>)
    requires var e := [tag] + l + content; idx + |e| <= |data| && data[idx..idx + |e|] == e
    ensures var from := idx + 1 + |l|;
      data[idx] == tag && data[idx + 1..from] == l && data[from..from + |content|] == content
  {
    var e := [tag] + l + content;
    assert data[idx] == data[idx..idx + |e|][0];
    assert e[1..1 + |l|] == l && e[1 + |l|..|e|] == content;
    SubSlice(data, idx, idx + |e|, 1, 1 + |l|);
    SubSlice(data, idx, idx + |e|, 1 + |l|, |e|);
  }

  lemma SubSlice<T>(s: seq<T>, a: nat, b: nat, c: nat, d: nat)
    requires a <= b <= |s| && c <= d <= b - a
    ensures s[a..b][c..d] == s[a + c..a + d]
  {
    var t := s[a..b];
    assert forall i :: 0 <= i < d - c ==> t[c..d][i] == t[c + i] == s[a + (c + i)] == s[a + c..a + d][i];
  }

  /** get_tag undoes the encoding of one element, in whichever length form, wherever it lies. */
  lemma ElementOfEncoded(data: seq<byte>, idx: nat, tag: byte, content: seq<byte>, form: Form)
    requires Fits(form, |content|)
    requires var e := Encoded(tag, content, form); idx + |e| <= |data| && data[idx..idx + |e|] == e
    ensures ElementAt(data, idx) == Success((Element(tag, |content|, content), idx + |Encoded(tag, content, form)|))
  {
    var l := EncodedLength(form, |content|);
    var from := idx + 1 + |l|;
    assert data[idx] == tag && data[idx + 1..from] == l && data[from..from + |content|] == content by {
      SplitElement(data, idx, tag, l, content);
    }
    ElementOfPieces(data, idx, form, content);
  }

  lemma ElementOfPieces(data: seq<byte>, idx: nat, form: Form, content: seq<byte>)
    requires Fits(form, |content|)
    requires var l := EncodedLength(form, |content|); var from := idx + 1 + |l|;
      from + |content| <= |data| && data[idx + 1..from] == l && data[from..from + |content|] == content
    ensures ElementAt(data, idx)
      == Success((Element(data[idx], |content|, content), idx + 1 + |EncodedLength(form, |content|)| + |content|))
  {
    LengthOfEncoded(data, idx + 1, form, |content|);
    ElementAfterLength(data, idx, idx + 1 + |EncodedLength(form, |content|)|, content);
  }

  /** An element to be written: tag, content, and the length form chosen for it. */
  datatype Item = Item(tag: byte, content: seq<byte>, form: Form)

  predicate Encodable(items: seq<Item>) {
    forall i :: 0 <= i < |items| ==> Fits(items[i].form, |items[i].content|)
  }

  function EncodeAll(items: seq<Item>): seq<byte>
    requires Encodable(items)
  {
    if |items| == 0 then []
    else Encoded(items[0].tag, items[0].content, items[0].form) + EncodeAll(items[1..])
  }

  /** get_tag until the data is used up. */
  function ReadAll(data: seq<byte>, idx: nat): Result<seq<Element>, Error>
    decreases |data| - idx
  {
    if idx >= |data| then Success([])
    else
      match ElementAt(data, idx)
      case Failure(e) => Failure(e)
      case Success((element, next)) =>
        ElementAdvances(data, idx);
        match ReadAll(data, next)
        case Failure(e) => Failure(e)
        case Success(rest) => Success([element] + rest)
  }

  lemma {:induction false} OctetsAdvance(data: seq<byte>, idx: nat, count: nat, total: nat)
    ensures Octets(data, idx, count, total).Success? ==>
      Octets(data, idx, count, total).value.1 == idx + count && (count > 0 ==> idx + count <= |data|)
    decreases count
  {
    if count == 0 || idx >= |data| {
    } else {
      OctetsAdvance(data, idx + 1, count - 1, total * 256 + data[idx]);
    }
  }

  lemma ElementAdvances(data: seq<byte>, idx: nat)
    ensures ElementAt(data, idx).Success? ==> ElementAt(data, idx).value.1 >= idx + 2
  {
    if idx + 1 < |data| && data[idx + 1] > 0x80 { OctetsAdvance(data, idx + 2, data[idx + 1] - 0x80, 0); }
  }

  lemma ReadOne(data: seq<byte>, idx: nat, element: Element, next: nat, rest: seq<Element>)
    requires idx < |data| && ElementAt(data, idx) == Success((element, next))
    requires ReadAll(data, next).Success? && ReadAll(data, next).value == rest
    ensures ReadAll(data, idx).Success? && ReadAll(data, idx).value == [element] + rest
  {
  }

  function Elements(items: seq<Item>): seq<Element> {
    if |items| == 0 then []
    else [Element(items[0].tag, |items[0].content|, items[0].content)] + Elements(items[1..])
  }

  lemma FirstElement(data: seq<byte>, idx: nat, items: seq<Item>) returns (next: nat)
    requires Encodable(items) && items != [] && idx <= |data| && data[idx..] == EncodeAll(items)
    ensures idx < next <= |data| && data[next..] == EncodeAll(items[1..])
    ensures ElementAt(data, idx) == Success((Element(items[0].tag, |items[0].content|, items[0].content), next))
  {
    var e := Encoded(items[0].tag, items[0].content, items[0].form);
    next := idx + |e|;
    SplitRest(data, idx, e, EncodeAll(items[1..]));
    ElementOfEncoded(data, idx, items[0].tag, items[0].content, items[0].form);
  }

  lemma SplitRest<T>(data: seq<T>, idx: nat, e: seq<T>, rest: seq<T>)
    requires idx <= |data| && data[idx..] == e + rest
    ensures idx + |e| <= |data| && data[idx..idx + |e|] == e && data[idx + |e|..] == rest
  {
    assert data[idx..][..|e|] == e && data[idx..][|e|..] == rest;
  }

  /** Repeated get_tag undoes any list of encoded elements, in short and long length forms. */
  lemma {:induction false} ReadAllUndoesEncodeAll(data: seq<byte>, idx: nat, items: seq<Item>)
    requires Encodable(items) && idx <= |data| && data[idx..] == EncodeAll(items)
    ensures ReadAll(data, idx).Success? && ReadAll(data, idx).value == Elements(items)
    decreases |items|
  {
    if |items| == 0 {
    } else {
      var next := FirstElement(data, idx, items);
      ReadAllUndoesEncodeAll(data, next, items[1..]);
      ReadOne(data, idx, Element(items[0].tag, |items[0].content|, items[0].content), next, Elements(items[1..]));
    }
  }

  // ---------------------------------------------------------------------------------------------
  // Reading is only ever the inverse of writing

  /** The length form found at an index. */
  function FormAt(data: seq<byte>, idx: nat): Form
    requires idx + 1 < |data|
  {
    if data[idx + 1] <= 0x80 then Short else Long(Slice(data, idx + 2, data[idx + 1] as nat - 0x80))
  }

  /** The length read at an index is written there in that form. */
  lemma LengthWritten(data: seq<byte>, idx: nat)
    requires LengthAt(data, idx + 1).Success?
    ensures var (length, from) := LengthAt(data, idx + 1).value;
      && |data| > idx + 1 && Fits(FormAt(data, idx), length)
      && idx + 1 <= from <= |data| && data[idx + 1..from] == EncodedLength(FormAt(data, idx), length)
  {
    if data[idx + 1] > 0x80 {
      OctetsAdvance(data, idx + 2, data[idx + 1] - 0x80, 0);
      OctetsRead(data, idx + 2, data[idx + 1] - 0x80);
      var from := LengthAt(data, idx + 1).value.1;
      assert data[idx + 1..from] == [data[idx + 1]] + data[idx + 2..from];
    }
  }

  /** Whatever get_tag accepts without running off the end is the encoding of what it returns. */
  lemma ElementWritten(data: seq<byte>, idx: nat)
    requires ElementAt(data, idx).Success? && ElementAt(data, idx).value.1 <= |data|
    ensures var (e, next) := ElementAt(data, idx).value;
      && |data| > idx + 1 && e.length == |e.data| && Fits(FormAt(data, idx), e.length)
      && idx <= next && data[idx..next] == Encoded(e.tag, e.data, FormAt(data, idx))
  {
    LengthWritten(data, idx);
    var next := ElementAt(data, idx).value.1;
    var from := LengthAt(data, idx + 1).value.1;
    JoinElement(data, idx, from, next);
  }

  lemma JoinElement<T>(data: seq<T>, idx: nat, from: nat, next: nat)
    requires idx < from <= next <= |data|
    ensures data[idx..next] == [data[idx]] + data[idx + 1..from] + data[from..next]
  {
  }

  // ---------------------------------------------------------------------------------------------
  // The modulus of an RSAPrivateKey (appendix A.1.2 of RFC 8017)

  const F4: seq<byte> := [1, 0, 1]

  /** 1024, 2048, 4096 or 8192 bits. */
  predicate IsKeySize(bits: int) { bits == 1024 || bits == 2048 || bits == 4096 || bits == 8192 }

  function ModulusOf(der: seq<byte>): Result<seq<byte>, Error> {
    match ElementAt(der, 0)
    case Failure(e) => Failure(e)
    case Success((outer, _)) => if outer.tag != SEQUENCE then Failure(NotASequence) else FieldsOf(outer.data)
  }

  /** version, modulus and publicExponent. */
  function FieldsOf(content: seq<byte>): Result<seq<byte>, Error> {
    match ElementAt(content, 0)
    case Failure(e) => Failure(e)
    case Success((version, next)) => if version.tag != INTEGER then Failure(BadVersion) else ModulusField(content, next)
  }

  function ModulusField(content: seq<byte>, idx: nat): Result<seq<byte>, Error> {
    match ElementAt(content, idx)
    case Failure(e) => Failure(e)
    case Success((modulus, next)) =>
      if modulus.tag != INTEGER then Failure(BadModulus)
      else if !IsKeySize((modulus.length - 1) * 8) then Failure(BadKeySize)
      else if |modulus.data| == 0 then Failure(OutOfData)
      else if modulus.data[0] != 0 then Failure(BadKeySize)
      else ExponentField(content, next, modulus.data)
  }

  function ExponentField(content: seq<byte>, idx: nat, modulus: seq<byte>): Result<seq<byte>, Error> {
    match ElementAt(content, idx)
    case Failure(e) => Failure(e)
    case Success((exponent, _)) =>
      if exponent.tag != INTEGER || exponent.length != 3 || exponent.data != F4 then Failure(BadExponent)
      else Success(modulus)
  }

  /** pem_get_mod after base64 decoding. */
  method PemGetMod(der: seq<byte>) returns (r: Result<seq<byte>, Error>)
    ensures r == ModulusOf(der)
  {
    var outer := new Reader(der);
    var seqTag := outer.GetTag();
    if seqTag.Failure? { return Failure(seqTag.error); }
    if seqTag.value.tag != SEQUENCE { return Failure(NotASequence); }
    var fields := new Reader(seqTag.value.data);
    var version := fields.GetTag();
    if version.Failure? { return Failure(version.error); }
    if version.value.tag != INTEGER { return Failure(BadVersion); }
    var modulus := fields.GetTag();
    if modulus.Failure? { return Failure(modulus.error); }
    if modulus.value.tag != INTEGER { return Failure(BadModulus); }
    var modSize := (modulus.value.length - 1) * 8;
    if !IsKeySize(modSize) { return Failure(BadKeySize); }
    if |modulus.value.data| == 0 { return Failure(OutOfData); }
    if modulus.value.data[0] != 0 { return Failure(BadKeySize); }
    var exponent := fields.GetTag();
    if exponent.Failure? { return Failure(exponent.error); }
    if exponent.value.tag != INTEGER { return Failure(BadExponent); }
    if exponent.value.length != 3 || exponent.value.data != F4 { return Failure(BadExponent); }
    r := Success(modulus.value.data);
  }

  /** What the three fields look like on the wire: their length forms, the version, and whatever follows. */
  datatype Layout = Layout(
    version: seq<byte>, versionForm: Form, modulusForm: Form, exponentForm: Form, rest: seq<byte>)

  ghost predicate IsKey(content: seq<byte>, modulus: seq<byte>, l: Layout) {
    && Fits(l.versionForm, |l.version|) && Fits(l.modulusForm, |modulus|) && Fits(l.exponentForm, 3)
    && content == Encoded(INTEGER, l.version, l.versionForm) + Encoded(INTEGER, modulus, l.modulusForm)
                  + Encoded(INTEGER, F4, l.exponentForm) + l.rest
    && (|modulus| == 129 || |modulus| == 257 || |modulus| == 513 || |modulus| == 1025) && modulus[0] == 0
  }

  lemma SplitFields<T>(v: seq<T>, m: seq<T>, e: seq<T>, rest: seq<T>)
    ensures var s := v + m + e + rest;
      s[0..|v|] == v && s[|v|..|v| + |m|] == m && s[|v| + |m|..|v| + |m| + |e|] == e
  {
  }

  lemma AcceptsExponent(content: seq<byte>, idx: nat, form: Form, modulus: seq<byte>)
    requires Fits(form, 3)
    requires var e := Encoded(INTEGER, F4, form); idx + |e| <= |content| && content[idx..idx + |e|] == e
    ensures ExponentField(content, idx, modulus) == Success(modulus)
  {
    ElementOfEncoded(content, idx, INTEGER, F4, form);
  }

  lemma AcceptsModulus(content: seq<byte>, idx: nat, form: Form, modulus: seq<byte>)
    requires Fits(form, |modulus|) && IsKeySize((|modulus| - 1) * 8) && modulus[0] == 0
    requires var m := Encoded(INTEGER, modulus, form);
      && idx + |m| <= |content| && content[idx..idx + |m|] == m
      && ExponentField(content, idx + |m|, modulus) == Success(modulus)
    ensures ModulusField(content, idx) == Success(modulus)
  {
    ElementOfEncoded(content, idx, INTEGER, modulus, form);
  }

  lemma AcceptsVersion(content: seq<byte>, version: seq<byte>, form: Form, modulus: seq<byte>)
    requires Fits(form, |version|)
    requires var v := Encoded(INTEGER, version, form);
      |v| <= |content| && content[0..|v|] == v && ModulusField(content, |v|) == Success(modulus)
    ensures FieldsOf(content) == Success(modulus)
  {
    ElementOfEncoded(content, 0, INTEGER, version, form);
  }

  /** Every well-formed key is accepted, in any length forms. */
  lemma AcceptsKeys(content: seq<byte>, modulus: seq<byte>, l: Layout)
    requires IsKey(content, modulus, l)
    ensures FieldsOf(content) == Success(modulus)
  {
    var v, m := Encoded(INTEGER, l.version, l.versionForm), Encoded(INTEGER, modulus, l.modulusForm);
    var e := Encoded(INTEGER, F4, l.exponentForm);
    assert content[0..|v|] == v && content[|v|..|v| + |m|] == m && content[|v| + |m|..|v| + |m| + |e|] == e by {
      SplitFields(v, m, e, l.rest);
    }
    AcceptsExponent(content, |v| + |m|, l.exponentForm, modulus);
    AcceptsModulus(content, |v|, l.modulusForm, modulus);
    AcceptsVersion(content, l.version, l.versionForm, modulus);
  }

  /** An element that does not run off the end, as a wire encoding. */
  lemma ElementAsEncoded(content: seq<byte>, idx: nat) returns (form: Form)
    requires ElementAt(content, idx).Success? && ElementAt(content, idx).value.1 <= |content|
    ensures var (e, next) := ElementAt(content, idx).value;
      e.length == |e.data| && Fits(form, |e.data|) && idx <= next && content[idx..next] == Encoded(e.tag, e.data, form)
  {
    ElementWritten(content, idx);
    form := FormAt(content, idx);
  }

  lemma Split4<T>(s: seq<T>, i: nat, j: nat, k: nat)
    requires i <= j <= k <= |s|
    ensures s == s[0..i] + s[i..j] + s[j..k] + s[k..]
  {
  }

  /** The three fields behind an accepted modulus. */
  lemma Fields(content: seq<byte>, modulus: seq<byte>)
    returns (v: Element, i: nat, m: Element, j: nat, e: Element, k: nat)
    requires FieldsOf(content) == Success(modulus)
    ensures ElementAt(content, 0) == Success((v, i)) && v.tag == INTEGER
    ensures ElementAt(content, i) == Success((m, j)) && m.tag == INTEGER && m.data == modulus
    ensures ElementAt(content, j) == Success((e, k)) && e.tag == INTEGER && e.data == F4 && e.length == 3
    ensures IsKeySize((m.length - 1) * 8) && modulus != [] && modulus[0] == 0
  {
    v, i := ElementAt(content, 0).value.0, ElementAt(content, 0).value.1;
    m, j := ElementAt(content, i).value.0, ElementAt(content, i).value.1;
    e, k := ElementAt(content, j).value.0, ElementAt(content, j).value.1;
  }

  /** Whatever is accepted is a well-formed key: nothing is truncated, and the modulus has its declared length. */
  lemma AcceptsOnlyKeys(content: seq<byte>, modulus: seq<byte>) returns (l: Layout)
    requires FieldsOf(content) == Success(modulus)
    ensures IsKey(content, modulus, l)
  {
    var v, i, m, j, e, k := Fields(content, modulus);
    ExponentWhole(content, j);
    var vForm := ElementAsEncoded(content, 0);
    var mForm := ElementAsEncoded(content, i);
    var eForm := ElementAsEncoded(content, j);
    l := Layout(v.data, vForm, mForm, eForm, content[k..]);
    Split4(content, i, j, k);
  }

  /** An accepted modulus is as long as the second field declares, has one of the four sizes and a zero first byte. */
  lemma AcceptedSize(content: seq<byte>, modulus: seq<byte>)
    requires FieldsOf(content) == Success(modulus)
    ensures ElementAt(content, 0).Success? && ElementAt(content, ElementAt(content, 0).value.1).Success?
    ensures var m := ElementAt(content, ElementAt(content, 0).value.1).value.0;
      m.data == modulus && m.length == |modulus|
    ensures IsKeySize((|modulus| - 1) * 8) && modulus[0] == 0
  {
    var v, i, m, j, e, k := Fields(content, modulus);
    ExponentWhole(content, j);
    ElementWritten(content, i);
  }

  /** An element whose data is as long as declared ends inside the data, and so do those before it. */
  lemma ExponentWhole(content: seq<byte>, idx: nat)
    requires ElementAt(content, idx).Success?
      && |ElementAt(content, idx).value.0.data| == ElementAt(content, idx).value.0.length > 0
    ensures idx < |content| && ElementAt(content, idx).value.1 <= |content|
  {
  }

  /** pem_get_mod returns a modulus if and only if the outer sequence holds a well-formed key with that modulus. */
  lemma ModulusIff(der: seq<byte>, modulus: seq<byte>)
    ensures ModulusOf(der) == Success(modulus) <==>
      && ElementAt(der, 0).Success? && ElementAt(der, 0).value.0.tag == SEQUENCE
      && exists l :: IsKey(ElementAt(der, 0).value.0.data, modulus, l)
  {
    if ElementAt(der, 0).Success? && ElementAt(der, 0).value.0.tag == SEQUENCE {
      var content := ElementAt(der, 0).value.0.data;
      if FieldsOf(content) == Success(modulus) {
        var l := AcceptsOnlyKeys(content, modulus);
      }
      forall l | IsKey(content, modulus, l)
        ensures FieldsOf(content) == Success(modulus)
      {
        AcceptsKeys(content, modulus, l);
      }
    }
  }
}
