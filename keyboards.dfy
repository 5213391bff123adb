/**
 * The transfer keyboard (`build_transfer_keyboard` in bot.py) and the choice of
 * whom it leaves out (`on_transferir`). Only the buttons and their order are
 * modelled; their arrangement in rows of three is not.
 */
module Keyboards {
  import opened Wrappers
  import opened Roster
  import opened Callback

  /** An inline button: its label and its callback payload. */
  datatype Button = Button(text: string, data: string)

  /** The closing "back" button. */
  const BACK: Button := Button("\U{2B05}\U{FE0F} Voltar", "voltar")

  /** The button that transfers the key to `nome`. */
  function DefinirButton(nome: string): Button {
    Button(nome, EncodeDefinir(nome))
  }

  /** `exclude and nome == exclude`: `None` and the empty string exclude nothing. */
  predicate Excluded(nome: string, exclude: Option<string>) {
    exclude.Some? && exclude.value != "" && nome == exclude.value
  }

  /** The names that get a button, in the order given. */
  function Kept(names: seq<string>, exclude: Option<string>): (kept: seq<string>)
    ensures |kept| <= |names|
  {
    if names == [] then []
    else
      var last := names[|names| - 1];
      Kept(names[..|names| - 1], exclude) + (if Excluded(last, exclude) then [] else [last])
  }

  function NameButtons(names: seq<string>): (bs: seq<Button>)
    ensures |bs| == |names| && forall i :: 0 <= i < |names| ==> bs[i] == DefinirButton(names[i])
  {
    seq(|names|, i requires 0 <= i < |names| => DefinirButton(names[i]))
  }

  /**
   * The keyboard as a value: one button per kept roster name, then the back
   * button. Each name button carries its own label's payload.
   */
  function TransferKeyboard(exclude: Option<string>): (kb: seq<Button>)
    ensures 0 < |kb| <= |EMPREGADOS| + 1 && kb[|kb| - 1] == BACK
    ensures forall i :: 0 <= i < |kb| - 1 ==> kb[i].data == EncodeDefinir(kb[i].text)
  {
    NameButtons(Kept(EMPREGADOS, exclude)) + [BACK]
  }

  /** `on_transferir`: exclude the current holder, unless the key is at the office. */
  function ExcludeFor(holder: string): (exclude: Option<string>)
    ensures exclude.None? <==> holder == SECRETARIA
  {
    if holder != SECRETARIA then Some(holder) else None
  }

  /** `build_transfer_keyboard`: walk the roster, skip the excluded name, close with the back button. */
  method BuildTransferKeyboard(exclude: Option<string>) returns (kb: seq<Button>)
    ensures kb == TransferKeyboard(exclude)
  {
    kb := [];
    var i := 0;
    while i < |EMPREGADOS|
      invariant 0 <= i <= |EMPREGADOS|
      invariant kb == NameButtons(Kept(EMPREGADOS[..i], exclude))
    {
      var nome := EMPREGADOS[i];
      KeptNext(EMPREGADOS, i, exclude);
      NameButtonsNext(Kept(EMPREGADOS[..i], exclude), nome);
      if exclude.Some? && exclude.value != "" && nome == exclude.value {
        i := i + 1;
        continue;
      }
      kb := kb + [DefinirButton(nome)];
      i := i + 1;
    }
    assert EMPREGADOS[..i] == EMPREGADOS;
    kb := kb + [BACK];
  }

  /** Walking one more name of the list keeps it unless it is excluded. */
  lemma KeptNext(names: seq<string>, i: nat, exclude: Option<string>)
    requires i < |names|
    ensures Kept(names[..i + 1], exclude) ==
      Kept(names[..i], exclude) + (if Excluded(names[i], exclude) then [] else [names[i]])
  {
    assert names[..i + 1][..i] == names[..i];
  }

  /** One more kept name is one more button, at the end. */
  lemma NameButtonsNext(names: seq<string>, nome: string)
    ensures NameButtons(names + [nome]) == NameButtons(names) + [DefinirButton(nome)]
  {
  }

  /** A name gets a button exactly when it is listed and not excluded. */
  lemma {:induction false} KeptMembers(names: seq<string>, exclude: Option<string>, n: string)
    ensures n in Kept(names, exclude) <==> n in names && !Excluded(n, exclude)
  {
    if names != [] {
      var init := names[..|names| - 1];
      assert names == init + [names[|names| - 1]];
      KeptMembers(init, exclude, n);
    }
  }

  /** When nothing listed is excluded, every name gets a button, in order. */
  lemma {:induction false} KeptAll(names: seq<string>, exclude: Option<string>)
    requires forall i :: 0 <= i < |names| ==> !Excluded(names[i], exclude)
    ensures Kept(names, exclude) == names
  {
    if names != [] {
      var init := names[..|names| - 1];
      assert forall i :: 0 <= i < |init| ==> init[i] == names[i];
      KeptAll(init, exclude);
      assert names == init + [names[|names| - 1]];
    }
  }

  /** Excluding the name at position `i` of a repetition-free list removes that one position. */
  lemma {:induction false} KeptDropsAt(names: seq<string>, i: nat)
    requires Distinct(names) && i < |names| && names[i] != ""
    ensures Kept(names, Some(names[i])) == names[..i] + names[i + 1..]
  {
    var init := names[..|names| - 1];
    var last := names[|names| - 1];
    assert names == init + [last];
    if i == |names| - 1 {
      forall j | 0 <= j < |init|
        ensures !Excluded(init[j], Some(names[i]))
      {
        assert init[j] == names[j];
      }
      KeptAll(init, Some(names[i]));
      assert names[..i] == init && names[i + 1..] == [];
    } else {
      forall a, b | 0 <= a < b < |init|
        ensures init[a] != init[b]
      {
        assert init[a] == names[a] && init[b] == names[b];
      }
      assert init[i] == names[i];
      KeptDropsAt(init, i);
      assert last != names[i];
      assert init[..i] == names[..i];
      assert init[i + 1..] + [last] == names[i + 1..];
    }
  }

  /**
   * The keyboard `on_transferir` shows: the whole roster while the key is at the
   * office, the roster without the holder when a roster member holds it, and the
   * whole roster again when the holder is not on it.
   */
  lemma MenuNames(holder: string)
    ensures holder == SECRETARIA ==> Kept(EMPREGADOS, ExcludeFor(holder)) == EMPREGADOS
    ensures holder !in EMPREGADOS ==> Kept(EMPREGADOS, ExcludeFor(holder)) == EMPREGADOS
    ensures forall i :: 0 < i < |EMPREGADOS| && holder == EMPREGADOS[i] ==>
      Kept(EMPREGADOS, ExcludeFor(holder)) == EMPREGADOS[..i] + EMPREGADOS[i + 1..]
  {
    RosterShape();
    if holder == SECRETARIA || holder !in EMPREGADOS {
      KeptAll(EMPREGADOS, ExcludeFor(holder));
    } else {
      forall i | 0 < i < |EMPREGADOS| && holder == EMPREGADOS[i]
        ensures Kept(EMPREGADOS, ExcludeFor(holder)) == EMPREGADOS[..i] + EMPREGADOS[i + 1..]
      {
        KeptDropsAt(EMPREGADOS, i);
      }
    }
  }

  /**
   * Every button but the last transfers to a roster name that is not excluded,
   * and its payload passes the router and decodes to its label; the last button
   * is "back" and does not reach `on_definir`.
   */
  lemma KeyboardButtons(exclude: Option<string>, k: nat)
    requires k < |TransferKeyboard(exclude)|
    ensures var b := TransferKeyboard(exclude)[k];
      if k == |TransferKeyboard(exclude)| - 1 then
        b == BACK && !HasDefinirPrefix(b.data)
      else
        HasDefinirPrefix(b.data) && DecodeDefinir(b.data) == Some(b.text) &&
        b.text in EMPREGADOS && !Excluded(b.text, exclude)
  {
    var kb := TransferKeyboard(exclude);
    var names := Kept(EMPREGADOS, exclude);
    if k < |kb| - 1 {
      var b := kb[k];
      assert b == DefinirButton(names[k]);
      EncodedHasPrefix(b.text);
      DecodeEncode(b.text);
      KeptMembers(EMPREGADOS, exclude, b.text);
    } else {
      assert |BACK.data| < |DEFINIR_PREFIX|;
    }
  }
}
