/** Automatic Item codes `{cat1}-{cat2}-{seq:04d}` (optionally `_V{ver:02d}`):
    the category code tables, the next sequence number read from the last
    code, and the Item hooks that fill in the code, name and group. */
module ItemNaming {
  import opened Records

  const Category1Map: map<string, string> := map[
    "E - Electrical/Electronic" := "E",
    "M - Mechanical" := "M",
    "P - Packaging/Panel" := "P",
    "C - Consumable" := "C",
    "S - Software/Specification" := "S"]

  const Category2Map: map<string, string> := map[
    "STD - Standard Part" := "STD",
    "CAT - Purchased Part" := "CAT",
    "CUS - Custom Part" := "CUS",
    "ASM - Assembly" := "ASM"]

  /** `MAP.get(name, "")`. */
  function CodeIn(m: map<string, string>, name: string): (c: string)
    ensures name !in m ==> c == ""
    ensures name in m ==> c == m[name]
  {
    if name in m then m[name] else ""
  }

  /** The codes of a category pair; an unknown name has the empty code. */
  function CategoryCode(category1: string, category2: string): (codes: (string, string))
    ensures codes.0 == CodeIn(Category1Map, category1) && codes.1 == CodeIn(Category2Map, category2)
  {
    (CodeIn(Category1Map, category1), CodeIn(Category2Map, category2))
  }

  /** Every known category has a non-empty code without '-' or '_' in it. */
  lemma CategoryCodesAreClean(category1: string, category2: string)
    ensures var (c1, c2) := CategoryCode(category1, category2);
            && (c1 != "" <==> category1 in Category1Map) && (c2 != "" <==> category2 in Category2Map)
            && '-' !in c1 + c2 && '_' !in c1 + c2
  {
  }

  // ---------------------------------------------------------------------------
  // Decimal digits

  predicate AllDigits(s: string) {
    forall i :: 0 <= i < |s| ==> '0' <= s[i] <= '9'
  }

  /** The number a digit string stands for (leading zeros allowed). */
  function DigitsValue(s: string): nat
    requires AllDigits(s)
    decreases |s|
  {
    if s == [] then 0 else DigitsValue(s[..|s| - 1]) * 10 + (s[|s| - 1] as int - '0' as int)
  }

  /** `int(s)` on the strings this model admits: a non-empty run of digits. */
  function ParseNat(s: string): (r: Option<nat>)
    ensures r.Some? <==> s != [] && AllDigits(s)
  {
    if s != [] && AllDigits(s) then Some(DigitsValue(s)) else None
  }

  /** Reading back the decimal text of a number gives the number. */
  lemma {:induction false} NatToStringValue(n: nat)
    ensures AllDigits(NatToString(n)) && DigitsValue(NatToString(n)) == n
    decreases n
  {
    var s := NatToString(n);
    if n >= 10 {
      NatToStringValue(n / 10);
      assert s[..|s| - 1] == NatToString(n / 10);
    }
  }

  function Zeros(k: nat): (z: string)
    ensures |z| == k && forall i :: 0 <= i < k ==> z[i] == '0'
  {
    if k == 0 then "" else "0" + Zeros(k - 1)
  }

  /** Leading zeros do not change the value. */
  lemma {:induction false} LeadingZerosValue(k: nat, s: string)
    requires AllDigits(s)
    ensures AllDigits(Zeros(k) + s) && DigitsValue(Zeros(k) + s) == DigitsValue(s)
    decreases |s|
  {
    var z := Zeros(k);
    if s == [] {
      assert z + s == z;
      ZerosValue(k);
    } else {
      LeadingZerosValue(k, s[..|s| - 1]);
      assert (z + s)[..|z + s| - 1] == z + s[..|s| - 1];
    }
  }

  lemma {:induction false} ZerosValue(k: nat)
    ensures AllDigits(Zeros(k)) && DigitsValue(Zeros(k)) == 0
    decreases k
  {
    if k > 0 {
      ZerosValue(k - 1);
      var z := Zeros(k);
      assert z[..k - 1] == Zeros(k - 1) by {
        assert forall i :: 0 <= i < k - 1 ==> z[i] == '0';
      }
    }
  }

  /** Python's `{n:0Wd}` for a natural number: its digits, zero-padded on the left to at least `width`. */
  function Padded(n: nat, width: nat): (s: string)
    ensures |s| == if |NatToString(n)| >= width then |NatToString(n)| else width
    ensures AllDigits(s) && DigitsValue(s) == n
  {
    NatToStringValue(n);
    var d := NatToString(n);
    if |d| >= width then d
    else
      LeadingZerosValue(width - |d|, d);
      Zeros(width - |d|) + d
  }

  // ---------------------------------------------------------------------------
  // The sequence number in the last code

  /** `s.replace(p, "")`: every occurrence of `p`, scanning left to right, removed. */
  function RemoveAll(s: string, p: string): (r: string)
    requires p != ""
    ensures |r| <= |s|
    decreases |s|
  {
    if |s| < |p| then s
    else if s[..|p|] == p then RemoveAll(s[|p|..], p)
    else [s[0]] + RemoveAll(s[1..], p)
  }

  /** `s.split("_")[0]`: the part before the first underscore. */
  function BeforeUnderscore(s: string): (r: string)
    ensures |r| <= |s| && r == s[..|r|] && '_' !in r
    ensures |r| < |s| ==> s[|r|] == '_'
  {
    if s == [] || s[0] == '_' then "" else [s[0]] + BeforeUnderscore(s[1..])
  }

  function Prefix(c1: string, c2: string): string {
    c1 + "-" + c2 + "-"
  }

  /** The parse of `get_next_sequence`: 1 with no previous code, otherwise the
      number before the first underscore of the code without the prefix, plus
      one, or 1 when that is not a number. */
  function NextSequence(lastCode: Option<string>, c1: string, c2: string): (n: nat)
    ensures n >= 1
    ensures lastCode.None? ==> n == 1
  {
    match lastCode
    case None => 1
    case Some(code) =>
      match ParseNat(BeforeUnderscore(RemoveAll(code, Prefix(c1, c2))))
      case Some(v) => v + 1
      case None => 1
  }

  /** A text without '-' holds no occurrence of a pattern that has one. */
  lemma {:induction false} RemoveAllAbsent(t: string, p: string)
    requires p != "" && '-' in p && '-' !in t
    ensures RemoveAll(t, p) == t
    decreases |t|
  {
    if |t| >= |p| {
      assert t[..|p|] != p;
      RemoveAllAbsent(t[1..], p);
      assert t == [t[0]] + t[1..];
    }
  }

  datatype NamingError = MissingCategory | Category1Required | Category2Required

  /** The code of a sequence number: `{c1}-{c2}-{seq:04d}`, then `_V{ver:02d}` when asked for. */
  function CodeFor(c1: string, c2: string, n: nat, includeVersion: bool, version: Option<nat>): string {
    var base := Prefix(c1, c2) + Padded(n, 4);
    if includeVersion then base + "_V" + Padded(if version.Some? then version.value else 0, 2) else base
  }

  /** `generate_item_code`, with the highest existing code of the prefix as input. */
  function GenerateItemCode(category1: string, category2: string, lastCode: Option<string>,
                            includeVersion: bool, version: Option<nat>): (r: Result<string, NamingError>)
    ensures var (c1, c2) := CategoryCode(category1, category2);
            && (r.Err? <==> c1 == "" || c2 == "")
            && (r.Ok? ==> r.value == CodeFor(c1, c2, NextSequence(lastCode, c1, c2), includeVersion, version))
  {
    var (c1, c2) := CategoryCode(category1, category2);
    if c1 == "" || c2 == "" then Err(MissingCategory)
    else Ok(CodeFor(c1, c2, NextSequence(lastCode, c1, c2), includeVersion, version))
  }

  /** Removing the prefix of a generated code leaves the rest of it. */
  lemma {:induction false} RemovePrefix(p: string, rest: string)
    requires p != "" && '-' in p && '-' !in rest
    ensures RemoveAll(p + rest, p) == rest
  {
    assert (p + rest)[..|p|] == p;
    assert (p + rest)[|p|..] == rest;
    RemoveAllAbsent(rest, p);
  }

  /** Digits followed by nothing or by an underscore part: the digits come first. */
  lemma {:induction false} DigitsBeforeUnderscore(digits: string, tail: string)
    requires AllDigits(digits) && (tail == "" || tail[0] == '_')
    ensures BeforeUnderscore(digits + tail) == digits
    decreases |digits|
  {
    if digits == [] {
      assert digits + tail == tail;
    } else {
      DigitsBeforeUnderscore(digits[1..], tail);
      assert (digits + tail)[1..] == digits[1..] + tail;
      assert digits == [digits[0]] + digits[1..];
    }
  }

  /** Generated codes continue their sequence: when the last code of a
      prefix is a generated one, the next code gets the following number. */
  lemma {:induction false} NextAfterGenerated(c1: string, c2: string, n: nat, includeVersion: bool, version: Option<nat>)
    ensures NextSequence(Some(CodeFor(c1, c2, n, includeVersion, version)), c1, c2) == n + 1
  {
    var p := Prefix(c1, c2);
    var digits := Padded(n, 4);
    var tail := if includeVersion then "_V" + Padded(if version.Some? then version.value else 0, 2) else "";
    var rest := digits + tail;
    CodeForParts(c1, c2, n, includeVersion, version);
    assert RemoveAll(p + rest, p) == rest by {
      assert p[|c1|] == '-';
      NoDashAfterPrefix(digits, tail);
      RemovePrefix(p, rest);
    }
    DigitsBeforeUnderscore(digits, tail);
    assert ParseNat(digits) == Some(n);
  }

  /** A generated code is its prefix, then its digits, then its suffix. */
  lemma CodeForParts(c1: string, c2: string, n: nat, includeVersion: bool, version: Option<nat>)
    ensures CodeFor(c1, c2, n, includeVersion, version) ==
              Prefix(c1, c2) + (Padded(n, 4) + if includeVersion then "_V" + Padded(if version.Some? then version.value else 0, 2) else "")
  {
    var p, d := Prefix(c1, c2), Padded(n, 4);
    if includeVersion {
      var v := Padded(if version.Some? then version.value else 0, 2);
      ConcatAssoc(p, d, "_V", v);
    }
  }

  lemma ConcatAssoc(a: string, b: string, c: string, d: string)
    ensures a + b + c + d == a + (b + (c + d))
  {
  }

  /** The digits and the version suffix of a generated code hold no '-'. */
  lemma NoDashAfterPrefix(digits: string, tail: string)
    requires AllDigits(digits) && (tail == "" || (|tail| >= 2 && tail[..2] == "_V" && AllDigits(tail[2..])))
    ensures '-' !in digits + tail
  {
    if tail != "" {
      assert tail == tail[..2] + tail[2..];
    }
  }

  /** `preview_item_code`: nothing to show until both categories are chosen. */
  function PreviewItemCode(category1: string, category2: string, lastCode: Option<string>): (r: Result<string, NamingError>)
    ensures category1 == "" || category2 == "" ==> r == Ok("")
    ensures category1 != "" && category2 != "" ==> r == GenerateItemCode(category1, category2, lastCode, false, None)
  {
    if category1 == "" || category2 == "" then Ok("") else GenerateItemCode(category1, category2, lastCode, false, None)
  }

  /** The group `sync_item_group_with_categories` leaves on the Item: the
      `{c1}-{c2}` group if it exists, else the first category's group if it
      exists, else the current one. */
  function SyncedGroup(category1: string, category2: string, groups: set<string>, current: string): (g: string)
    ensures g == current || g in groups
    ensures var (c1, c2) := CategoryCode(category1, category2);
            && (category1 == "" || category2 == "" || c1 == "" || c2 == "" ==> g == current)
            && (category1 != "" && category2 != "" && c1 != "" && c2 != "" ==>
                  g == (if c1 + "-" + c2 in groups then c1 + "-" + c2
                        else if category1 in groups then category1 else current))
  {
    if category1 == "" || category2 == "" then current
    else
      var (c1, c2) := CategoryCode(category1, category2);
      if c1 == "" || c2 == "" then current
      else if c1 + "-" + c2 in groups then c1 + "-" + c2
      else if category1 in groups then category1
      else current
  }

  /** The naming fields of an Item being saved. */
  class ItemForm {
    const useAutoNaming: bool
    const category1: string
    const category2: string
    var itemCode: string
    var itemName: string
    var itemGroup: string

    constructor(auto: bool, cat1: string, cat2: string, code: string, name: string, group: string)
      ensures useAutoNaming == auto && category1 == cat1 && category2 == cat2
      ensures itemCode == code && itemName == name && itemGroup == group
    {
      useAutoNaming := auto;
      category1 := cat1;
      category2 := cat2;
      itemCode := code;
      itemName := name;
      itemGroup := group;
    }

    /** `sync_item_group_with_categories`. */
    method SyncItemGroup(groups: set<string>)
      modifies this
      ensures itemGroup == SyncedGroup(category1, category2, groups, old(itemGroup))
      ensures itemCode == old(itemCode) && itemName == old(itemName)
    {
      itemGroup := SyncedGroup(category1, category2, groups, itemGroup);
    }

    /** `before_insert_item`: with auto-naming and both categories set, the
        code is generated, the name defaults to it and the group is synced. */
    method BeforeInsert(lastCode: Option<string>, groups: set<string>) returns (r: Outcome<NamingError>)
      modifies this
      ensures !(useAutoNaming && category1 != "" && category2 != "") ==>
                r == Pass && itemCode == old(itemCode) && itemName == old(itemName) && itemGroup == old(itemGroup)
      ensures useAutoNaming && category1 != "" && category2 != "" ==>
                match GenerateItemCode(category1, category2, lastCode, false, None)
                case Err(e) => r == Fail(e) && itemCode == old(itemCode) && itemName == old(itemName) && itemGroup == old(itemGroup)
                case Ok(code) => r == Pass && itemCode == code && itemName == NotesOr(old(itemName), code)
                                 && itemGroup == SyncedGroup(category1, category2, groups, old(itemGroup))
    {
      if !(useAutoNaming && category1 != "" && category2 != "") { return Pass; }
      var g := GenerateItemCode(category1, category2, lastCode, false, None);
      if g.Err? { return Fail(g.error); }
      itemCode := g.value;
      itemName := if itemName != "" then itemName else g.value;
      SyncItemGroup(groups);
      r := Pass;
    }

    /** `validate_item`: auto-naming needs the first category, then the second. */
    method Validate(groups: set<string>) returns (r: Outcome<NamingError>)
      modifies this
      ensures itemCode == old(itemCode) && itemName == old(itemName)
      ensures !useAutoNaming ==> r == Pass && itemGroup == old(itemGroup)
      ensures useAutoNaming && category1 == "" ==> r == Fail(Category1Required) && itemGroup == old(itemGroup)
      ensures useAutoNaming && category1 != "" && category2 == "" ==> r == Fail(Category2Required) && itemGroup == old(itemGroup)
      ensures useAutoNaming && category1 != "" && category2 != "" ==>
                r == Pass && itemGroup == SyncedGroup(category1, category2, groups, old(itemGroup))
    {
      if !useAutoNaming { return Pass; }
      if category1 == "" { return Fail(Category1Required); }
      if category2 == "" { return Fail(Category2Required); }
      SyncItemGroup(groups);
      r := Pass;
    }
  }
}
