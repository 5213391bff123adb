/** The fixed roster of people who may hold the key (`EMPREGADOS` in bot.py). */
module Roster {

  /** The distinguished default holder: the key is back at the office. */
  const SECRETARIA: string := "Secretaria"

  /** The roster in the order the transfer keyboard shows it. */
  const EMPREGADOS: seq<string> := [
    "Secretaria",
    "Lucas", "André", "Pâmela", "Maria Cecília", "Lívia", "Loreena",
    "Duda", "Maria Fernanda", "Jéssica", "Manoela", "Luara", "Enzo",
    "Maria Gabriela", "Guilherme"
  ]

  /** No name occurs twice. */
  ghost predicate Distinct(names: seq<string>) {
    forall a, b :: 0 <= a < b < |names| ==> names[a] != names[b]
  }

  /** The roster lists the default holder first, has no repeated name and no empty name. */
  lemma RosterShape()
    ensures |EMPREGADOS| == 15 && EMPREGADOS[0] == SECRETARIA
    ensures Distinct(EMPREGADOS)
    ensures forall n :: n in EMPREGADOS ==> n != ""
  {
  }
}
