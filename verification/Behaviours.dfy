/**
 * The fixed vocabulary of the recorder: the one-letter behaviour codes, their
 * labels and chart colours, the order in which the summary lists them, and
 * the two control keys.
 */
module Behaviours {

  /** What one read from the terminal yields: a character, or nothing usable
      (the interrupt sentinel `0`, or the empty string once input has ended).
      Neither of the latter is a label code, the pause key or the quit key. */
  datatype Key = Press(ch: char) | NoChar

  const Quit: Key := Press('q')
  const PauseToggle: Key := Press(' ')

  /** The code of the "blank" behaviour the session starts in. */
  const Other: char := 'o'

  const Labels: map<char, string> := map[
    'a' := "Allogrooming",
    'b' := "Burrowing",
    'c' := "Climbing",
    'g' := "Grooming",
    'n' := "Nesting",
    'o' := "Other",
    'r' := "Rearing",
    's' := "Sitting"]

  const Colors: map<char, string> := map[
    'a' := "#0000CC",
    'b' := "#FF0066",
    'c' := "#FF3399",
    'g' := "#FF99CC",
    'n' := "#0099FF",
    'o' := "#99FF66",
    'r' := "#FF66CC",
    's' := "#9999FF"]

  /** The order in which the summary visits the codes. */
  const PieOrder: seq<char> := ['a', 'b', 'r', 'c', 'g', 'o', 's', 'n']

  predicate Distinct<T(==)>(s: seq<T>)
  {
    forall i, j :: 0 <= i < j < |s| ==> s[i] != s[j]
  }

  /** Whether a key names one of the eight behaviours. */
  predicate Recognised(key: Key)
  {
    key.Press? && key.ch in Labels
  }

  /** The behaviour a key selects while recording: its own code when it has a
      label, Other for everything else. */
  function Coerce(key: Key): (c: char)
    ensures c in Labels
    ensures Recognised(key) ==> key == Press(c)
    ensures c != Other ==> key == Press(c)
  {
    if Recognised(key) then key.ch else Other
  }

  /** Every code has exactly one label and one colour, the summary order lists
      each code once, and neither control key is a behaviour. */
  lemma TablesAgree()
    ensures Labels.Keys == Colors.Keys
    ensures forall c :: c in Labels <==> c in PieOrder
    ensures Distinct(PieOrder)
    ensures Other in Labels
    ensures !Recognised(Quit) && !Recognised(PauseToggle) && !Recognised(NoChar)
  {
  }
}
