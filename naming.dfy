/**
 * File names used by the dictionary helpers: the numbered names
 * `<base>_<counter:03d>.json` that `generar_nombre_archivo` searches through,
 * the smallest free counter, and the `.json` suffix rule of `guardar_diccionario`.
 */
module Naming {
  import opened Formatting

  const JsonSuffix: string := ".json"

  /** The base name used when no file name is given. */
  const DefaultBase: string := "dict"

  /** `str.endswith` */
  predicate EndsWith(s: string, suffix: string) {
    |suffix| <= |s| && s[|s| - |suffix|..] == suffix
  }

  /** The name tried for a given counter: `f"{base}_{counter:03d}.json"`. */
  function NumberedName(base: string, counter: nat): string {
    base + "_" + ZeroPad(counter, 3) + JsonSuffix
  }

  lemma NumberedNameEndsWithJson(base: string, counter: nat)
    ensures EndsWith(NumberedName(base, counter), JsonSuffix)
  {
  }

  /** Different counters give different names, so the search never revisits a name. */
  lemma NumberedNameInjective(base: string, a: nat, b: nat)
    requires NumberedName(base, a) == NumberedName(base, b)
    ensures a == b
  {
    var s, t := NumberedName(base, a), NumberedName(base, b);
    var lo := |base| + 1;
    var pa, pb := ZeroPad(a, 3), ZeroPad(b, 3);
    assert |pa| == |pb|;
    assert s[lo..lo + |pa|] == pa;
    assert t[lo..lo + |pb|] == pb;
    ZeroPadInjective(a, b, 3);
  }

  /** The names of counters 1 .. upTo - 1. */
  function Tried(base: string, upTo: nat): set<string> {
    if upTo <= 1 then {} else Tried(base, upTo - 1) + {NumberedName(base, upTo - 1)}
  }

  lemma {:induction false} NotYetTried(base: string, counter: nat, upTo: nat)
    requires upTo <= counter
    ensures NumberedName(base, counter) !in Tried(base, upTo)
    decreases upTo
  {
    if upTo > 1 {
      NotYetTried(base, counter, upTo - 1);
      if NumberedName(base, counter) == NumberedName(base, upTo - 1) {
        NumberedNameInjective(base, counter, upTo - 1);
      }
    }
  }

  /** One more existing name is ruled out at each step of the search. */
  lemma TriedStep(base: string, taken: set<string>, counter: nat)
    requires 1 <= counter && NumberedName(base, counter) in taken
    ensures |taken - Tried(base, counter + 1)| < |taken - Tried(base, counter)|
  {
    NotYetTried(base, counter, counter);
    var rest := taken - Tried(base, counter);
    assert taken - Tried(base, counter + 1) == rest - {NumberedName(base, counter)};
  }

  /**
   * The smallest counter >= from whose name is not taken. It exists because
   * `taken` is finite and the names of distinct counters are distinct.
   */
  function FirstFree(base: string, taken: set<string>, from: nat): (c: nat)
    requires 1 <= from
    ensures from <= c && NumberedName(base, c) !in taken
    ensures forall j :: from <= j < c ==> NumberedName(base, j) in taken
    decreases |taken - Tried(base, from)|
  {
    if NumberedName(base, from) !in taken then from
    else
      TriedStep(base, taken, from);
      FirstFree(base, taken, from + 1)
  }

  /** A counter that is free while all the ones below it are taken is the one FirstFree picks. */
  lemma FirstFreeUnique(base: string, taken: set<string>, c: nat)
    requires 1 <= c && NumberedName(base, c) !in taken
    requires forall j :: 1 <= j < c ==> NumberedName(base, j) in taken
    ensures FirstFree(base, taken, 1) == c
  {
  }

  /** The rule of lines 58-59: append `.json` unless the name already ends with it. */
  function WithJsonSuffix(name: string): (r: string)
    ensures EndsWith(r, JsonSuffix)
    ensures |name| <= |r| && r[..|name|] == name
  {
    if EndsWith(name, JsonSuffix) then name else name + JsonSuffix
  }

  /** The suffix is appended only when missing: a name is left alone exactly when it already ends in `.json`. */
  lemma WithJsonSuffixFixedPoint(name: string)
    ensures WithJsonSuffix(name) == name <==> EndsWith(name, JsonSuffix)
    ensures !EndsWith(name, JsonSuffix) ==> WithJsonSuffix(name) == name + JsonSuffix
  {
  }

  /** Normalising twice is normalising once. */
  lemma WithJsonSuffixIdempotent(name: string)
    ensures WithJsonSuffix(WithJsonSuffix(name)) == WithJsonSuffix(name)
  {
  }
}
