/**
 * `String.kebabToSnake` and `String.snakeToPascal` of the `effect` library.
 *
 * Their bodies are not part of this model; the definitions below are ASSUMED
 * (they follow the library's published behaviour):
 *   - kebabToSnake replaces every `-` by `_`;
 *   - snakeToPascal upper-cases the first character, then walks the rest: a
 *     `_` is dropped and the character after it is upper-cased and consumed
 *     with it; any other character is copied. It throws (it reads a character
 *     past the end and calls `toUpperCase` on `undefined`) when the input is
 *     empty or when a `_` it is about to drop is the last character.
 * Upper-casing is modelled on the ASCII letters only.
 */
module EffectString {
  import opened Text

  /** `String.kebabToSnake` (assumed definition). */
  function KebabToSnake(s: string): (r: string)
    ensures |r| == |s|
    ensures forall i :: 0 <= i < |s| ==> r[i] == (if s[i] == '-' then '_' else s[i])
  {
    if s == [] then [] else [if s[0] == '-' then '_' else s[0]] + KebabToSnake(s[1..])
  }

  /** Length of the run of `_` at the end of `s`. */
  function TrailingUnderscores(s: string): (n: nat)
    ensures n <= |s|
  {
    if s == [] || s[|s| - 1] != '_' then 0 else 1 + TrailingUnderscores(s[..|s| - 1])
  }

  /** The loop of `String.snakeToPascal` after its first character; `None` when it throws. */
  function PascalTail(t: string): (r: Option<string>)
    decreases |t|
  {
    if t == [] then Some([])
    else if t[0] == '_' then
      if |t| == 1 then None
      else match PascalTail(t[2..])
        case None => None
        case Some(rest) => Some([ToUpper(t[1])] + rest)
    else match PascalTail(t[1..])
      case None => None
      case Some(rest) => Some([t[0]] + rest)
  }

  /** `String.snakeToPascal` (assumed definition); `None` when it throws. */
  function SnakeToPascal(s: string): (r: Option<string>)
    ensures r.Some? ==> s != [] && |r.value| > 0 && r.value[0] == ToUpper(s[0])
  {
    if s == [] then None
    else match PascalTail(s[1..])
      case None => None
      case Some(rest) => Some([ToUpper(s[0])] + rest)
  }

  predicate AllUnderscores(u: string) {
    forall i :: 0 <= i < |u| ==> u[i] == '_'
  }

  /** Prepending one character extends the trailing run only when the run was the whole string. */
  lemma {:induction false} TrailingUnderscoresCons(c: char, u: string)
    ensures TrailingUnderscores([c] + u)
         == if c == '_' && AllUnderscores(u) then |u| + 1 else TrailingUnderscores(u)
    decreases |u|
  {
    var v := [c] + u;
    if u != [] && u[|u| - 1] == '_' {
      assert v[..|v| - 1] == [c] + u[..|u| - 1];
      TrailingUnderscoresCons(c, u[..|u| - 1]);
      assert AllUnderscores(u) <==> AllUnderscores(u[..|u| - 1]);
    }
  }

  lemma {:induction false} TrailingUnderscoresOfAll(u: string)
    requires AllUnderscores(u)
    ensures TrailingUnderscores(u) == |u|
    decreases |u|
  {
    if u != [] {
      TrailingUnderscoresOfAll(u[..|u| - 1]);
    }
  }

  /**
   * The loop of `snakeToPascal` runs to completion exactly when the run of `_`
   * at the end of its input has even length: the run is reached at a step
   * boundary, and each step then consumes two of its underscores.
   */
  lemma {:induction false} PascalTailDefined(t: string)
    ensures PascalTail(t).Some? <==> TrailingUnderscores(t) % 2 == 0
    decreases |t|
  {
    if t == [] {
    } else if t[0] != '_' {
      assert t == [t[0]] + t[1..];
      TrailingUnderscoresCons(t[0], t[1..]);
      PascalTailDefined(t[1..]);
    } else if |t| == 1 {
      assert t == [t[0]] + [];
      TrailingUnderscoresCons(t[0], []);
    } else {
      var u := t[2..];
      assert t == [t[0]] + t[1..];
      assert t[1..] == [t[1]] + u;
      TrailingUnderscoresCons(t[0], t[1..]);
      TrailingUnderscoresCons(t[1], u);
      PascalTailDefined(u);
      if AllUnderscores(t[1..]) {
        assert AllUnderscores(u);
        TrailingUnderscoresOfAll(u);
      }
    }
  }

  /**
   * `String.snakeToPascal` throws exactly on the empty string and on a string
   * whose trailing run of `_` after the first character has odd length.
   */
  lemma SnakeToPascalDefined(s: string)
    ensures SnakeToPascal(s).Some? <==> s != [] && TrailingUnderscores(s[1..]) % 2 == 0
  {
    if s != [] {
      PascalTailDefined(s[1..]);
    }
  }

  /** Without `_`, the loop copies its input. */
  lemma {:induction false} PascalTailWithoutUnderscore(t: string)
    requires '_' !in t
    ensures PascalTail(t) == Some(t)
    decreases |t|
  {
    if t != [] {
      assert t == [t[0]] + t[1..];
      PascalTailWithoutUnderscore(t[1..]);
    }
  }

  /** Without `_` after the first character, only the first character changes (it is upper-cased). */
  lemma SnakeToPascalWithoutUnderscore(s: string)
    requires s != [] && '_' !in s[1..]
    ensures SnakeToPascal(s) == Some([ToUpper(s[0])] + s[1..])
  {
    PascalTailWithoutUnderscore(s[1..]);
  }

  /** Number of `_` separators the loop drops from `t` (each is consumed with the character after it). */
  function Separators(t: string): (n: nat)
    decreases |t|
  {
    if t == [] then 0
    else if t[0] == '_' && |t| >= 2 then 1 + Separators(t[2..])
    else Separators(t[1..])
  }

  /** Each dropped separator shortens the output by one character. */
  lemma {:induction false} PascalTailLength(t: string)
    requires PascalTail(t).Some?
    ensures |PascalTail(t).value| == |t| - Separators(t)
    decreases |t|
  {
    if t != [] {
      if t[0] == '_' {
        PascalTailLength(t[2..]);
      } else {
        PascalTailLength(t[1..]);
      }
    }
  }
}
