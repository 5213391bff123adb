/**
 * Callback data of the transfer buttons: `"definir::" + nome` when a button is
 * built, and `data.split("::", 1)[1]` when the press arrives.
 */
module Callback {
  import opened Wrappers

  /** The prefix the router matches before `on_definir` runs. */
  const DEFINIR_PREFIX: string := "definir::"

  /** The button payload for choosing `nome`. */
  function EncodeDefinir(nome: string): (data: string)
    ensures |data| == |DEFINIR_PREFIX| + |nome| && data[|DEFINIR_PREFIX|..] == nome
  {
    DEFINIR_PREFIX + nome
  }

  /** The router's `startswith("definir::")`: it passes exactly the payloads that are some name's encoding. */
  predicate HasDefinirPrefix(data: string): (b: bool)
    ensures b <==> |DEFINIR_PREFIX| <= |data| && data == EncodeDefinir(data[|DEFINIR_PREFIX|..])
  {
    |DEFINIR_PREFIX| <= |data| && data[..|DEFINIR_PREFIX|] == DEFINIR_PREFIX
  }

  /** The separator `"::"` starts at index `i` of `s`. */
  predicate SepAt(s: string, i: int) {
    0 <= i && i + 1 < |s| && s[i] == ':' && s[i + 1] == ':'
  }

  /** No separator starts before index `k`. */
  ghost predicate NoSepBefore(s: string, k: int) {
    forall i :: 0 <= i < k ==> !SepAt(s, i)
  }

  /** The first index at or after `from` where a separator starts, or `|s|` if there is none. */
  function FirstSep(s: string, from: nat): (k: nat)
    requires from <= |s|
    ensures from <= k <= |s| && (k == |s| || SepAt(s, k))
    ensures forall i :: from <= i < k ==> !SepAt(s, i)
    decreases |s| - from
  {
    if from == |s| then from
    else if SepAt(s, from) then from
    else FirstSep(s, from + 1)
  }

  /**
   * `s.split("::", 1)[1]`: what follows the first separator. With no separator the
   * split has one part and indexing it fails, which is `None` here.
   */
  function AfterFirstSep(s: string): (r: Option<string>)
    ensures r.None? <==> NoSepBefore(s, |s|)
    ensures r.Some? ==>
      |r.value| + 2 <= |s| &&
      SepAt(s, |s| - |r.value| - 2) &&
      NoSepBefore(s, |s| - |r.value| - 2) &&
      r.value == s[|s| - |r.value|..]
  {
    var k := FirstSep(s, 0);
    if k < |s| then Some(s[k + 2..]) else None
  }

  /** `on_definir`'s decoding of the pressed button. */
  function DecodeDefinir(data: string): (r: Option<string>)
    ensures r.Some? ==> |r.value| < |data|
  {
    AfterFirstSep(data)
  }

  /** Decoding inverts encoding for every name, including names that contain `"::"`. */
  lemma DecodeEncode(nome: string)
    ensures DecodeDefinir(EncodeDefinir(nome)) == Some(nome)
  {
    var s := EncodeDefinir(nome);
    assert SepAt(s, 7);
    var r := AfterFirstSep(s);
    assert r.Some?;
    var k := |s| - |r.value| - 2;
    assert forall i :: 0 <= i < 7 ==> s[i] != ':';
    assert k == 7;
  }

  /** Every payload the router hands to `on_definir` decodes to the text after the prefix. */
  lemma DecodeUnderPrefix(data: string)
    requires HasDefinirPrefix(data)
    ensures DecodeDefinir(data) == Some(data[|DEFINIR_PREFIX|..])
    ensures EncodeDefinir(DecodeDefinir(data).value) == data
  {
    assert data == EncodeDefinir(data[|DEFINIR_PREFIX|..]);
    DecodeEncode(data[|DEFINIR_PREFIX|..]);
  }

  /** Every encoded payload passes the router's prefix test. */
  lemma EncodedHasPrefix(nome: string)
    ensures HasDefinirPrefix(EncodeDefinir(nome))
  {
  }
}
