/**
 * The status message (`status_text` in bot.py). The rendering of the timestamp in
 * local time (`fmt_brazil`) is not modelled: its output is the parameter `shown`.
 */
module Status {
  import opened Roster

  const STATUS_PREFIX: string := "\U{1F511} Status da Chave"
  const OUTSIDE: string := "Fora da Secretaria"

  /** Everything before the holder's name. */
  const HOLDER_LEAD: string := STATUS_PREFIX + "\n\n" + "**Chave com:** "
  /** The label of the last line. */
  const LOCAL_LEAD: string := "**Local:** "

  /** Where the key is: at the office exactly when the office holds it. */
  function Local(holder: string): (place: string)
    ensures place == SECRETARIA <==> holder == SECRETARIA
    ensures place == OUTSIDE <==> holder != SECRETARIA
  {
    if holder == SECRETARIA then SECRETARIA else OUTSIDE
  }

  /** The label of the update-time line. */
  const TIME_LEAD: string := "**Atualizado:** "

  /**
   * Four lines after a blank one: the prefix, the holder after its label, the
   * update time after its label, and the place after its label. Each piece sits
   * at a fixed offset given the lengths of the holder and the time before it.
   */
  function StatusText(holder: string, shown: string): (text: string)
    ensures |HOLDER_LEAD| <= |text| && text[..|HOLDER_LEAD|] == HOLDER_LEAD
    ensures text[..|STATUS_PREFIX|] == STATUS_PREFIX
    ensures var a := |HOLDER_LEAD| + |holder|;
      var b := a + 1 + |TIME_LEAD|;
      var c := b + |shown|;
      c < |text| &&
      text[|HOLDER_LEAD|..a] == holder && text[a] == '\n' &&
      text[a + 1..b] == TIME_LEAD && text[b..c] == shown && text[c] == '\n' &&
      text[c + 1..] == LOCAL_LEAD + Local(holder)
  {
    var last := LOCAL_LEAD + Local(holder);
    Layout(HOLDER_LEAD, holder, TIME_LEAD, shown, last);
    LeadStartsWithPrefix();
    HOLDER_LEAD + holder + "\n" + TIME_LEAD + shown + "\n" + last
  }

  /** Where each piece of a five-piece, two-break text sits. */
  lemma Layout(lead: string, holder: string, timeLead: string, shown: string, last: string)
    ensures var text := lead + holder + "\n" + timeLead + shown + "\n" + last;
      var a := |lead| + |holder|;
      var b := a + 1 + |timeLead|;
      var c := b + |shown|;
      c < |text| && text[..|lead|] == lead &&
      text[|lead|..a] == holder && text[a] == '\n' &&
      text[a + 1..b] == timeLead && text[b..c] == shown && text[c] == '\n' &&
      text[c + 1..] == last
  {
  }

  /** The label before the holder opens with the status prefix. */
  lemma LeadStartsWithPrefix()
    ensures |STATUS_PREFIX| <= |HOLDER_LEAD| && HOLDER_LEAD[..|STATUS_PREFIX|] == STATUS_PREFIX
  {
    Pieces(STATUS_PREFIX, "\n\n" + "**Chave com:** ", []);
  }

  /** Where the three pieces of a concatenation sit. */
  lemma Pieces(a: string, b: string, c: string)
    ensures (a + b + c)[..|a|] == a
    ensures (a + b + c)[|a|..|a| + |b|] == b
    ensures (a + b + c)[|a| + |b|..] == c
  {
  }

  /** The text up to the first line break. */
  function FirstLine(s: string): (line: string)
    ensures |line| <= |s| && '\n' !in line
  {
    if s == [] || s[0] == '\n' then [] else [s[0]] + FirstLine(s[1..])
  }

  /** Reading the status text: the holder is the rest of the line after its label. */
  function HolderOf(text: string): string {
    if |text| < |HOLDER_LEAD| then [] else FirstLine(text[|HOLDER_LEAD|..])
  }

  /** A line without a break, followed by a break, is read back whole. */
  lemma {:induction false} FirstLineOf(line: string, rest: string)
    requires '\n' !in line
    ensures FirstLine(line + "\n" + rest) == line
  {
    if line != [] {
      assert (line + "\n" + rest)[1..] == line[1..] + "\n" + rest;
      FirstLineOf(line[1..], rest);
    }
  }

  /** Reading the holder back from the status text gives the holder, when it has no line break. */
  lemma ReadHolder(holder: string, shown: string)
    requires '\n' !in holder
    ensures HolderOf(StatusText(holder, shown)) == holder
  {
    FirstLineAt(StatusText(holder, shown), |HOLDER_LEAD|, holder);
  }

  /** A line without a break that sits at `start` and is followed by a break is the first line from `start`. */
  lemma FirstLineAt(text: string, start: nat, line: string)
    requires '\n' !in line && start + |line| < |text|
    requires text[start..start + |line|] == line && text[start + |line|] == '\n'
    ensures FirstLine(text[start..]) == line
  {
    var tail := text[start..];
    assert tail == line + "\n" + tail[|line| + 1..];
    FirstLineOf(line, tail[|line| + 1..]);
  }

  /**
   * The holder can be read back from the status text: two texts for holders
   * without a line break, shown at the same time, are equal only when the
   * holders are.
   */
  lemma StatusNamesHolder(h1: string, h2: string, shown: string)
    requires '\n' !in h1 && '\n' !in h2
    requires StatusText(h1, shown) == StatusText(h2, shown)
    ensures h1 == h2
  {
    ReadHolder(h1, shown);
    ReadHolder(h2, shown);
  }

  /** The update time can be read back too: for one holder, equal texts mean equal times. */
  lemma StatusNamesTime(holder: string, t1: string, t2: string)
    requires StatusText(holder, t1) == StatusText(holder, t2)
    ensures t1 == t2
  {
  }
}
