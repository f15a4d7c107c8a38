/** Names the generator invents: result names of a signature and file names of store groups. */
module GeneratedNames {
  import opened Basics
  import opened Text

  // Pigeonhole

  /** Different candidates that are all taken are at most as many as the taken names. */
  lemma {:induction false} Crowded(candidate: nat -> string, n: nat, used: set<string>)
    requires forall i, j :: 0 <= i < j < n ==> candidate(i) != candidate(j)
    requires forall i: nat | i < n :: candidate(i) in used
    ensures n <= |used|
  {
    if n > 0 {
      Crowded(candidate, n - 1, used - {candidate(n - 1)});
    }
  }

  // Decimal suffixes

  function Digit(d: nat): char
    requires d < 10
  {
    "0123456789"[d]
  }

  function Decimal(n: nat): (s: string)
    ensures s != ""
  {
    (if n < 10 then "" else Decimal(n / 10)) + [Digit(n % 10)]
  }

  function DigitValue(c: char): nat {
    if '0' <= c <= '9' then c as int - '0' as int else 0
  }

  function Value(s: string): nat {
    if s == "" then 0 else Value(s[..|s| - 1]) * 10 + DigitValue(s[|s| - 1])
  }

  lemma {:induction false} DecimalReadsBack(n: nat)
    ensures Value(Decimal(n)) == n
  {
    assert DigitValue(Digit(n % 10)) == n % 10;
    if n >= 10 {
      DecimalReadsBack(n / 10);
      assert Decimal(n)[..|Decimal(n)| - 1] == Decimal(n / 10);
    } else {
      assert Decimal(n)[..|Decimal(n)| - 1] == "";
    }
  }

  lemma SuffixesDiffer(preferred: string, i: nat, j: nat)
    requires i != j
    ensures preferred + Decimal(i) != preferred + Decimal(j)
  {
    DecimalReadsBack(i);
    DecimalReadsBack(j);
    assert (preferred + Decimal(i))[|preferred|..] == Decimal(i);
    assert (preferred + Decimal(j))[|preferred|..] == Decimal(j);
  }

  /** The preferred name if it is free, else the first free one with a number from 2 on. */
  ghost predicate FirstFree(preferred: string, used: set<string>, name: string) {
    && name !in used
    && if preferred !in used then name == preferred
       else exists k: nat :: k >= 2 && name == preferred + Decimal(k) && TakenBelow(preferred, used, k)
  }

  ghost predicate TakenBelow(preferred: string, used: set<string>, k: nat) {
    forall j :: 2 <= j < k ==> preferred + Decimal(j) in used
  }

  lemma SuffixBound(preferred: string, used: set<string>, k: nat)
    requires k >= 2 && TakenBelow(preferred, used, k)
    ensures k - 2 <= |used|
  {
    hide Decimal;
    var candidate := (i: nat) => preferred + Decimal(i + 2);
    forall i, j | 0 <= i < j < k - 2 ensures candidate(i) != candidate(j) {
      SuffixesDiffer(preferred, i + 2, j + 2);
    }
    Crowded(candidate, k - 2, used);
  }

  /** The search always ends: the numbered names are all different, so the taken ones run out. */
  method UniqueGeneratedName(preferred: string, used: set<string>) returns (name: string)
    ensures FirstFree(preferred, used, name)
  {
    hide Decimal;
    if preferred !in used {
      return preferred;
    }
    var suffix: nat := 2;
    while true
      invariant suffix >= 2 && TakenBelow(preferred, used, suffix)
      decreases |used| + 2 - suffix
    {
      name := preferred + Decimal(suffix);
      if name !in used {
        return;
      }
      SuffixBound(preferred, used, suffix + 1);
      suffix := suffix + 1;
    }
  }

  // Named results

  function Preferred(results: seq<string>, i: nat): string
    requires i < |results|
  {
    if i == |results| - 1 && results[i] == "error" then "err"
    else if |results| > 2 then "result" + Decimal(i)
    else "result"
  }

  function Parts(names: seq<string>, results: seq<string>): seq<string>
    requires |names| == |results|
  {
    seq(|names|, i requires 0 <= i < |names| => names[i] + " " + results[i])
  }

  function Elements(xs: seq<string>): set<string> {
    set x | x in xs
  }

  /** The names taken before the i-th result is named. */
  function Taken(params: seq<string>, reserved: seq<string>, names: seq<string>): set<string> {
    Elements(params) + Elements(reserved) + Elements(names)
  }

  method ResultNames(params: seq<string>, results: seq<string>, reserved: seq<string>) returns (names: seq<string>)
    ensures |names| == |results|
    ensures forall i :: 0 <= i < |names| ==>
              FirstFree(Preferred(results, i), Taken(params, reserved, names[..i]), names[i])
  {
    hide FirstFree, Preferred;
    var used := Taken(params, reserved, []);
    names := [];
    for i := 0 to |results|
      invariant |names| == i && used == Taken(params, reserved, names)
      invariant forall j :: 0 <= j < i ==>
                  FirstFree(Preferred(results, j), Taken(params, reserved, names[..j]), names[j])
    {
      var name := UniqueGeneratedName(Preferred(results, i), used);
      ghost var before := names;
      names := names + [name];
      used := used + {name};
      assert forall j :: 0 <= j <= i ==> names[..j] == before[..j];
      assert before[..i] == before && Elements(names) == Elements(before) + {name};
    }
  }

  /** Result names are pairwise different and differ from every parameter and reserved name; each is the preferred one
      unless that is taken. */
  method NamedResultsSignature(params: seq<string>, results: seq<string>, reserved: seq<string>)
    returns (signature: string, names: seq<string>, errName: string)
    ensures |names| == |results| && Distinct(names)
    ensures forall i :: 0 <= i < |names| ==> names[i] !in params && names[i] !in reserved
    ensures forall i :: 0 <= i < |names| ==>
              FirstFree(if i == |results| - 1 && results[i] == "error" then "err"
                        else if |results| <= 2 then "result" else "result" + Decimal(i),
                        Taken(params, reserved, names[..i]), names[i])
    ensures signature == if results == [] then "" else " (" + Join(Parts(names, results), ", ") + ")"
    ensures errName == if results != [] && results[|results| - 1] == "error" then names[|names| - 1] else ""
  {
    hide FirstFree, Join, Decimal;
    names := ResultNames(params, results, reserved);
    forall i | 0 <= i < |names| ensures names[i] !in Taken(params, reserved, names[..i]) {
      FreshName(Preferred(results, i), Taken(params, reserved, names[..i]), names[i]);
    }
    forall i, j | 0 <= i < j < |names| ensures names[i] != names[j] {
      assert names[..j][i] in Elements(names[..j]);
    }
    signature := if results == [] then "" else " (" + Join(Parts(names, results), ", ") + ")";
    errName := if results != [] && results[|results| - 1] == "error" then names[|names| - 1] else "";
  }

  lemma FreshName(preferred: string, used: set<string>, name: string)
    requires FirstFree(preferred, used, name)
    ensures name !in used
  {
  }

  // Output files

  /** The length of the extension of the last path element, with its dot. */
  function ExtensionLength(path: string): (n: nat)
    ensures n <= |path|
  {
    if path == "" || path[|path| - 1] == '/' then 0
    else if path[|path| - 1] == '.' then 1
    else
      var n := ExtensionLength(path[..|path| - 1]);
      if n == 0 then 0 else n + 1
  }

  function Extension(path: string): (e: string)
    ensures |e| <= |path| && path[|path| - |e|..] == e
  {
    path[|path| - ExtensionLength(path)..]
  }

  /** The output file with a section name before its extension. */
  function Derived(output: string, section: string): string {
    var e := Extension(output);
    output[..|output| - |e|] + "_" + section + e
  }

  /** The section goes before the extension, which is what follows the last dot of the last path element, if it has
      one. */
  lemma DerivedKeepsExtension(stem: string, extension: string, section: string)
    requires forall i :: 0 <= i < |extension| ==> extension[i] != '.' && extension[i] != '/'
    ensures Derived(stem + "." + extension, section) == stem + "_" + section + "." + extension
    ensures stem == "" || stem[|stem| - 1] == '/' ==>
      Derived(stem + extension, section) == stem + extension + "_" + section
  {
    Plain(stem + ".", extension);
    Plain(stem, extension);
    hide ExtensionLength;
    var path := stem + "." + extension;
    assert path[|stem|..] == "." + extension && path[..|stem|] == stem;
    assert stem + "_" + section + ("." + extension) == stem + "_" + section + "." + extension;
    if stem == "" || stem[|stem| - 1] == '/' {
      assert (stem + extension)[|stem + extension|..] == "";
    }
  }

  lemma {:induction false} Plain(base: string, tail: string)
    requires forall i :: 0 <= i < |tail| ==> tail[i] != '.' && tail[i] != '/'
    ensures base == "" || base[|base| - 1] == '/' ==> ExtensionLength(base + tail) == 0
    ensures base != "" && base[|base| - 1] == '.' ==> ExtensionLength(base + tail) == 1 + |tail|
  {
    if tail == "" {
      assert base + tail == base;
    } else {
      var init := tail[..|tail| - 1];
      Plain(base, init);
      assert (base + tail)[..|base + tail| - 1] == base + init;
    }
  }

  /** The key of a file name on a file system that ignores case. */
  function Key(output: string, section: string, lower: char -> char): string {
    Lowered(Derived(output, section), lower)
  }

  function Grouped(section: string, n: nat): string {
    if n == 0 then section else "group_" + Grouped(section, n - 1)
  }

  lemma {:induction false} GroupedLength(section: string, n: nat)
    ensures |Grouped(section, n)| == |section| + 6 * n
  {
    if n > 0 {
      GroupedLength(section, n - 1);
    }
  }

  lemma KeysDiffer(output: string, section: string, lower: char -> char, i: nat, j: nat)
    requires i != j
    ensures Key(output, Grouped(section, i), lower) != Key(output, Grouped(section, j), lower)
  {
    GroupedLength(section, i);
    GroupedLength(section, j);
    hide Grouped;
    assert |Key(output, Grouped(section, i), lower)| != |Key(output, Grouped(section, j), lower)|;
  }

  lemma PrefixBound(output: string, section: string, lower: char -> char, used: set<string>, n: nat)
    requires Prefixed(output, section, lower, used, n)
    ensures n <= |used|
  {
    hide Key, Grouped;
    var candidate := (i: nat) => Key(output, Grouped(section, i), lower);
    forall i, j | 0 <= i < j < n ensures candidate(i) != candidate(j) {
      KeysDiffer(output, section, lower, i, j);
    }
    Crowded(candidate, n, used);
  }

  /** One group's file: prefixed until its key is free. */
  method GroupFileName(output: string, section: string, lower: char -> char, used: set<string>) returns (name: string)
    ensures OfSection(output, section, lower, used, name)
  {
    hide Extension, Derived, Lowered;
    var current := section;
    ghost var n := 0;
    while true
      invariant current == Grouped(section, n) && Prefixed(output, section, lower, used, n)
      decreases |used| - n
    {
      name := Derived(output, current);
      if Lowered(name, lower) !in used {
        return;
      }
      PrefixBound(output, section, lower, used, n + 1);
      current := "group_" + current;
      n := n + 1;
    }
  }

  const SECTIONS := ["interfaces", "read", "write", "sharded"]

  function FixedKeys(output: string, lower: char -> char): set<string> {
    {Lowered(output, lower)} + set i | 0 <= i < |SECTIONS| :: Key(output, SECTIONS[i], lower)
  }

  function Keys(names: seq<string>, lower: char -> char): (keys: seq<string>)
    ensures |keys| == |names|
  {
    seq(|names|, i requires 0 <= i < |names| => Lowered(names[i], lower))
  }

  /** The name of a section with the fewest prefixes that make its key free. */
  ghost predicate OfSection(output: string, section: string, lower: char -> char, used: set<string>, name: string) {
    && Lowered(name, lower) !in used
    && exists n :: name == Derived(output, Grouped(section, n)) && Prefixed(output, section, lower, used, n)
  }

  ghost predicate Prefixed(output: string, section: string, lower: char -> char, used: set<string>, n: nat) {
    forall j: nat | j < n :: Key(output, Grouped(section, j), lower) in used
  }

  /** The keys taken before the i-th group is named. */
  function UsedKeys(output: string, names: seq<string>, lower: char -> char): set<string> {
    FixedKeys(output, lower) + Elements(Keys(names, lower))
  }

  method GroupNames(output: string, sections: seq<string>, lower: char -> char) returns (names: seq<string>)
    ensures |names| == |sections|
    ensures forall i :: 0 <= i < |names| ==>
              OfSection(output, sections[i], lower, UsedKeys(output, names[..i], lower), names[i])
  {
    hide Derived, Lowered, FixedKeys, OfSection;
    var used := FixedKeys(output, lower);
    names := [];
    for i := 0 to |sections|
      invariant |names| == i && used == UsedKeys(output, names, lower)
      invariant forall j :: 0 <= j < i ==>
                  OfSection(output, sections[j], lower, UsedKeys(output, names[..j], lower), names[j])
    {
      var name := GroupFileName(output, sections[i], lower, used);
      ghost var before := names;
      assert Keys(before + [name], lower) == Keys(before, lower) + [Lowered(name, lower)];
      assert Elements(Keys(before, lower) + [Lowered(name, lower)])
          == Elements(Keys(before, lower)) + {Lowered(name, lower)};
      names := names + [name];
      used := used + {Lowered(name, lower)};
      assert before[..i] == before && forall j :: 0 <= j <= i ==> names[..j] == before[..j];
    }
  }

  lemma FixedFiles(output: string, lower: char -> char)
    ensures Lowered(output, lower) in FixedKeys(output, lower)
    ensures forall fixed | fixed in {"interfaces", "read", "write", "sharded"} ::
              Lowered(Derived(output, fixed), lower) in FixedKeys(output, lower)
  {
    hide Derived, Lowered;
    assert SECTIONS[0] == "interfaces" && SECTIONS[1] == "read" && SECTIONS[2] == "write" && SECTIONS[3] == "sharded";
    assert forall i :: 0 <= i < |SECTIONS| ==> Key(output, SECTIONS[i], lower) in FixedKeys(output, lower);
  }

  lemma SectionIsFree(output: string, section: string, lower: char -> char, used: set<string>, name: string)
    requires OfSection(output, section, lower, used, name)
    ensures Lowered(name, lower) !in used
  {
  }

  /** File names of the groups: different from each other and from the fixed files even when case is ignored, each with
      as few prefixes as that allows. */
  method StoreGroupOutputFileNames(output: string, sections: seq<string>, lower: char -> char)
    returns (names: seq<string>)
    ensures |names| == |sections| && Distinct(Keys(names, lower))
    ensures forall i :: 0 <= i < |names| ==> Keys(names, lower)[i] !in FixedKeys(output, lower)
    ensures forall i :: 0 <= i < |names| ==> Keys(names, lower)[i] != Lowered(output, lower)
    ensures forall i, fixed :: 0 <= i < |names| && fixed in {"interfaces", "read", "write", "sharded"} ==>
              Keys(names, lower)[i] != Lowered(Derived(output, fixed), lower)
    ensures forall i :: 0 <= i < |names| ==>
              OfSection(output, sections[i], lower, UsedKeys(output, names[..i], lower), names[i])
  {
    FixedFiles(output, lower);
    hide Derived, Lowered, FixedKeys, OfSection;
    names := GroupNames(output, sections, lower);
    forall i | 0 <= i < |names| ensures Keys(names, lower)[i] !in UsedKeys(output, names[..i], lower) {
      SectionIsFree(output, sections[i], lower, UsedKeys(output, names[..i], lower), names[i]);
    }
    forall i, j | 0 <= i < j < |names| ensures Keys(names, lower)[i] != Keys(names, lower)[j] {
      assert Keys(names[..j], lower)[i] in Elements(Keys(names[..j], lower));
    }
  }
}
