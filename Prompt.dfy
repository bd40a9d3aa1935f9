/** The request text sent to the completion endpoint: one of two fixed
    Portuguese phrasings chosen by the response-mode flag, followed by the
    user's input verbatim. */
module Prompt {
  import opened Wrappers

  /** Phrasing used when detailed answers are switched on. */
  const DetailedPrefix: string := "Forneça uma explicação detalhada sobre: "
  /** Phrasing used when simple answers are selected (the default). */
  const SimplePrefix: string := "Responda de forma simples: "

  function PrefixFor(detailed: bool): string {
    if detailed then DetailedPrefix else SimplePrefix
  }

  /** The prompt for one send: the input always comes last and unchanged. */
  function Compose(input: string, detailed: bool): (p: string)
    ensures |p| == |PrefixFor(detailed)| + |input|
    ensures p[|p| - |input|..] == input
    ensures PrefixFor(detailed) <= p
  {
    PrefixFor(detailed) + input
  }

  /** Reads a prompt back into its mode flag and the user's input, or None
      when it starts with neither phrasing. */
  function ParsePrompt(p: string): Option<(bool, string)> {
    if DetailedPrefix <= p then Some((true, p[|DetailedPrefix|..]))
    else if SimplePrefix <= p then Some((false, p[|SimplePrefix|..]))
    else None
  }

  /** The two phrasings differ in their first character, so neither is a
      prefix of a prompt built with the other. */
  lemma PrefixesDisjoint(input: string)
    ensures !(DetailedPrefix <= SimplePrefix + input)
    ensures !(SimplePrefix <= DetailedPrefix + input)
  {
    assert DetailedPrefix[0] == 'F';
    assert (SimplePrefix + input)[0] == 'R';
    assert SimplePrefix[0] == 'R';
    assert (DetailedPrefix + input)[0] == 'F';
  }

  /** Every prompt gives back the mode and the input it was built from. */
  lemma ParseCompose(input: string, detailed: bool)
    ensures ParsePrompt(Compose(input, detailed)) == Some((detailed, input))
  {
    PrefixesDisjoint(input);
    var p := Compose(input, detailed);
    assert p[|PrefixFor(detailed)|..] == input;
  }

  /** Whatever parses as a prompt is the prompt of what it parses to. */
  lemma ComposeParse(p: string, detailed: bool, input: string)
    requires ParsePrompt(p) == Some((detailed, input))
    ensures Compose(input, detailed) == p
  {
    var pre := PrefixFor(detailed);
    assert p == p[..|pre|] + p[|pre|..];
  }

  /** Distinct (input, mode) pairs never produce the same prompt. */
  lemma ComposeInjective(a: string, da: bool, b: string, db: bool)
    requires Compose(a, da) == Compose(b, db)
    ensures a == b && da == db
  {
    ParseCompose(a, da);
    ParseCompose(b, db);
  }
}
