/** Release tags: their order, against the precedence of section 11 of Semantic Versioning 2.0.0. */
module ReleaseOrder {
  import opened Wrappers
  import opened Text
  import opened Lexicographic

  /** A tag as its numerals and its pre-release part, all as they are written. */
  datatype Tag = Tag(major: string, minor: string, patch: string, pre: string)

  // ---------- parsing ----------

  predicate IsPreChar(c: char) {
    IsLetter(c) || IsDigit(c) || c == '.' || c == '-'
  }

  /** What may follow the hyphen of a tag. */
  predicate IsPre(s: string) {
    s != "" && (IsLetter(s[0]) || IsDigit(s[0])) && forall k :: 0 <= k < |s| ==> IsPreChar(s[k])
  }

  function ParseTag(value: string): Option<Tag> {
    var t := Trim(value);
    if t == "" || t[0] != 'v' then None
    else
      var core := Split(BeforeFirst(t[1..], '-'), '.');
      var pre := AfterFirst(t[1..], '-');
      if |core| != 3 || !IsNumeral(core[0]) || !IsNumeral(core[1]) || !IsNumeral(core[2]) then None
      else if pre.Some? && !IsPre(pre.value) then None
      else Some(Tag(core[0], core[1], core[2], if pre == None then "" else pre.value))
  }

  predicate IsTag(t: Tag) {
    && IsNumeral(t.major) && IsNumeral(t.minor) && IsNumeral(t.patch)
    && (t.pre == "" || IsPre(t.pre))
  }

  lemma ParsedIsTag(value: string)
    ensures ParseTag(value).Some? ==> IsTag(ParseTag(value).value)
  {
    hide IsPre, Trim, Split, BeforeFirst, AfterFirst, IsNumeral;
  }

  // ---------- comparing ----------

  predicate CharLess(x: char, y: char) {
    x < y
  }

  /** The comparison of two different identifiers. */
  function CompareIds(x: string, y: string): int {
    if IsNumeral(x) && IsNumeral(y) then if ParseDecimal(x) > ParseDecimal(y) then 1 else -1
    else if IsNumeral(x) != IsNumeral(y) then if IsNumeral(x) then -1 else 1
    else if Before(y, x, CharLess) then 1 else -1
  }

  /** The comparison of identifiers from position i on. */
  function CompareLists(a: seq<string>, b: seq<string>, i: nat): int
    decreases |a| - i
  {
    if i >= |a| && i >= |b| then 0
    else if i >= |a| then -1
    else if i >= |b| then 1
    else if a[i] == b[i] then CompareLists(a, b, i + 1)
    else CompareIds(a[i], b[i])
  }

  method ComparePre(a: seq<string>, b: seq<string>) returns (r: int)
    ensures r == CompareLists(a, b, 0)
  {
    hide CompareIds;
    var i := 0;
    while i < |a| || i < |b|
      invariant i <= |a| || i <= |b|
      invariant CompareLists(a, b, 0) == CompareLists(a, b, i)
      decreases |a| + |b| - i
    {
      if i >= |a| {
        return -1;
      }
      if i >= |b| {
        return 1;
      }
      if a[i] != b[i] {
        return CompareIds(a[i], b[i]);
      }
      i := i + 1;
    }
    r := 0;
  }

  function Number(s: string): nat
    requires IsNumeral(s)
  {
    ParseDecimal(s)
  }

  function CompareTags(a: Tag, b: Tag): int
    requires IsTag(a) && IsTag(b)
  {
    if Number(a.major) != Number(b.major) then if Number(a.major) > Number(b.major) then 1 else -1
    else if Number(a.minor) != Number(b.minor) then if Number(a.minor) > Number(b.minor) then 1 else -1
    else if Number(a.patch) != Number(b.patch) then if Number(a.patch) > Number(b.patch) then 1 else -1
    else if a.pre == "" && b.pre != "" then 1
    else if a.pre != "" && b.pre == "" then -1
    else if a.pre == b.pre then 0
    else CompareLists(Split(a.pre, '.'), Split(b.pre, '.'), 0)
  }

  /** Texts that are no tags compare as equal. */
  function CompareTexts(left: string, right: string): int {
    ParsedIsTag(left);
    ParsedIsTag(right);
    var a, b := ParseTag(left), ParseTag(right);
    if a == None || b == None then 0 else CompareTags(a.value, b.value)
  }

  /** compareFreeneticReleaseTags. */
  method CompareReleaseTags(left: string, right: string) returns (r: int)
    ensures r == CompareTexts(left, right)
  {
    hide ParseTag, CompareLists, Split, IsPre, ParseDecimal;
    var l, m := ParseTag(left), ParseTag(right);
    ParsedIsTag(left);
    ParsedIsTag(right);
    if l == None || m == None {
      return 0;
    }
    var a, b := l.value, m.value;
    if Number(a.major) != Number(b.major) {
      return if Number(a.major) > Number(b.major) then 1 else -1;
    }
    if Number(a.minor) != Number(b.minor) {
      return if Number(a.minor) > Number(b.minor) then 1 else -1;
    }
    if Number(a.patch) != Number(b.patch) {
      return if Number(a.patch) > Number(b.patch) then 1 else -1;
    }
    if a.pre == "" && b.pre != "" {
      return 1;
    }
    if a.pre != "" && b.pre == "" {
      return -1;
    }
    if a.pre == b.pre {
      return 0;
    }
    r := ComparePre(Split(a.pre, '.'), Split(b.pre, '.'));
  }

  // ---------- precedence as section 11 of Semantic Versioning 2.0.0 has it ----------

  /** Numbers by value, texts in ASCII order, numbers before texts. */
  predicate IdBefore(x: string, y: string) {
    || (IsNumeral(x) && IsNumeral(y) && ParseDecimal(x) < ParseDecimal(y))
    || (IsNumeral(x) && !IsNumeral(y))
    || (!IsNumeral(x) && !IsNumeral(y) && Before(x, y, CharLess))
  }

  ghost predicate Precedes(a: Tag, b: Tag)
    requires IsTag(a) && IsTag(b)
  {
    || Number(a.major) < Number(b.major)
    || (Number(a.major) == Number(b.major)
        && (|| Number(a.minor) < Number(b.minor)
            || (Number(a.minor) == Number(b.minor)
                && (|| Number(a.patch) < Number(b.patch)
                    || (Number(a.patch) == Number(b.patch) && PrePrecedes(a.pre, b.pre))))))
  }

  /** A pre-release precedes the release; two of them compare identifier by identifier. */
  ghost predicate PrePrecedes(p: string, q: string) {
    p != "" && (q == "" || Before(Split(p, '.'), Split(q, '.'), IdBefore))
  }

  // ---------- numerals without leading zeros ----------

  predicate IsCanonical(s: string) {
    IsNumeral(s) ==> s == "0" || s[0] != '0'
  }

  ghost predicate AllCanonical(ids: seq<string>) {
    forall k :: 0 <= k < |ids| ==> IsCanonical(ids[k])
  }

  ghost predicate IsCanonicalTag(t: Tag) {
    IsTag(t) && IsCanonical(t.major) && IsCanonical(t.minor) && IsCanonical(t.patch) && AllCanonical(Split(t.pre, '.'))
  }

  /** A numeral without leading zeros is the decimal text of its value. */
  lemma {:induction false} CanonicalText(s: string)
    requires IsNumeral(s) && IsCanonical(s)
    ensures Decimal(ParseDecimal(s)) == s
    ensures ParseDecimal(s) == 0 <==> s == "0"
  {
    var n := |s| - 1;
    assert IsDigit(s[n]);
    if n == 0 {
      assert s[..0] == "" && s == [s[0]];
      assert Digit(0) == '0';
    } else {
      var init := s[..n];
      assert init != "0";
      CanonicalText(init);
      assert ParseDecimal(s) == 10 * ParseDecimal(init) + DigitValue(s[n]);
      assert ParseDecimal(s) / 10 == ParseDecimal(init) && ParseDecimal(s) % 10 == DigitValue(s[n]);
      assert s == init + [s[n]];
    }
  }

  lemma CanonicalInjective(x: string, y: string)
    requires IsNumeral(x) && IsNumeral(y) && IsCanonical(x) && IsCanonical(y) && ParseDecimal(x) == ParseDecimal(y)
    ensures x == y
  {
    CanonicalText(x);
    CanonicalText(y);
  }

  // ---------- the comparison is the precedence ----------

  lemma CharOrder()
    ensures IsStrict(CharLess) && IsTotal(CharLess)
  {
  }

  /** Precedence of identifiers is a strict order. */
  lemma IdOrder()
    ensures IsStrict(IdBefore)
  {
    CharOrder();
    BeforeStrict(CharLess);
    hide IsNumeral, ParseDecimal, Before;
    forall x, y, z | IdBefore(x, y) && IdBefore(y, z)
      ensures IdBefore(x, z)
    {
    }
  }

  lemma StringTotal(x: string, y: string)
    ensures x != y ==> Before(x, y, CharLess) || Before(y, x, CharLess)
    ensures !(Before(x, y, CharLess) && Before(y, x, CharLess))
  {
    CharOrder();
    if x != y {
      BeforeTotal(x, y, CharLess);
    }
    if Before(x, y, CharLess) && Before(y, x, CharLess) {
      BeforeTransitive(x, y, x, CharLess);
      BeforeIrreflexive(x, CharLess);
    }
  }

  /** Both numbers, of the same value: where the comparison of different identifiers goes wrong. */
  predicate SameNumber(x: string, y: string) {
    IsNumeral(x) && IsNumeral(y) && ParseDecimal(x) == ParseDecimal(y)
  }

  lemma IdsCompared(x: string, y: string)
    requires x != y
    ensures !SameNumber(x, y) ==> CompareIds(x, y) == if IdBefore(x, y) then -1 else 1
    ensures !SameNumber(x, y) ==> (IdBefore(x, y) <==> !IdBefore(y, x))
    ensures SameNumber(x, y) ==> CompareIds(x, y) == -1 && CompareIds(y, x) == -1 && !IdBefore(x, y) && !IdBefore(y, x)
  {
    hide IsNumeral, ParseDecimal, Before;
    StringTotal(x, y);
  }

  /** Where the lists first differ, and what the comparison makes of that place. */
  lemma {:induction false} ListsCompared(a: seq<string>, b: seq<string>, i: nat) returns (d: nat)
    requires i <= |a| && i <= |b| && a[..i] == b[..i] && a != b
    ensures i <= d <= |a| && d <= |b| && a[..d] == b[..d] && (d == |a| || d == |b| || a[d] != b[d])
    ensures CompareLists(a, b, i) == if d == |a| then -1 else if d == |b| then 1 else CompareIds(a[d], b[d])
    ensures d == |a| ==> d < |b|
    decreases |a| - i
  {
    hide CompareIds;
    WholeTaken(a, i);
    WholeTaken(b, i);
    if i < |a| && i < |b| && a[i] == b[i] {
      assert a[..i + 1] == a[..i] + [a[i]] && b[..i + 1] == b[..i] + [b[i]];
      d := ListsCompared(a, b, i + 1);
    } else {
      d := i;
    }
  }

  lemma ListsPrecedence(a: seq<string>, b: seq<string>, d: nat)
    requires d <= |a| && d <= |b| && a[..d] == b[..d] && (d == |a| || d == |b| || a[d] != b[d])
    requires d == |a| ==> d < |b|
    ensures Before(a, b, IdBefore) <==> d == |a| || (d < |b| && IdBefore(a[d], b[d]))
  {
    hide IdBefore;
    if d == |a| || (d < |b| && IdBefore(a[d], b[d])) {
      assert DiffersAt(a, b, IdBefore, d);
    } else if Before(a, b, IdBefore) {
      var j :| 0 <= j <= |a| && DiffersAt(a, b, IdBefore, j);
      OnePlace(a, b, d, j);
    }
  }

  lemma OnePlace(a: seq<string>, b: seq<string>, d: nat, j: nat)
    requires d <= |a| && d <= |b| && a[..d] == b[..d] && (d == |a| || d == |b| || a[d] != b[d])
    requires j <= |a| && DiffersAt(a, b, IdBefore, j)
    ensures j == d
  {
    IdOrder();
    if j < d {
      TakenAt(a, b, d, j);
    } else if d < j {
      TakenAt(a, b, j, d);
    }
  }

  lemma TakenAt(a: seq<string>, b: seq<string>, n: nat, k: nat)
    requires k < n <= |a| && n <= |b| && a[..n] == b[..n]
    ensures a[k] == b[k]
  {
    assert a[..n][k] == b[..n][k];
  }

  lemma SplitInjective(p: string, q: string)
    requires p != q
    ensures Split(p, '.') != Split(q, '.')
  {
    JoinSplit(p, '.');
    JoinSplit(q, '.');
  }

  /** Pre-releases that differ first in two numbers of the same value. */
  ghost predicate Clash(p: string, q: string) {
    var a, b := Split(p, '.'), Split(q, '.');
    exists d: nat :: d < |a| && d < |b| && a[..d] == b[..d] && a[d] != b[d] && SameNumber(a[d], b[d])
  }

  lemma ListsClash(a: seq<string>, b: seq<string>, d: nat, e: nat)
    requires d <= |a| && d <= |b| && a[..d] == b[..d] && (d == |a| || d == |b| || a[d] != b[d])
    requires e < |a| && e < |b| && a[..e] == b[..e] && a[e] != b[e]
    ensures d == e
  {
    if d < e {
      TakenAt(a, b, e, d);
    } else if e < d {
      TakenAt(a, b, d, e);
    }
  }

  /** Two different pre-releases: the comparison is the precedence, unless they clash. */
  lemma PresCompared(p: string, q: string)
    requires p != q && p != "" && q != ""
    ensures var a, b := Split(p, '.'), Split(q, '.');
      && (!Clash(p, q) ==> CompareLists(a, b, 0) == if PrePrecedes(p, q) then -1 else 1)
      && (!Clash(p, q) ==> CompareLists(b, a, 0) == -CompareLists(a, b, 0))
      && (!Clash(p, q) ==> (PrePrecedes(p, q) <==> !PrePrecedes(q, p)))
      && (Clash(p, q) ==> CompareLists(a, b, 0) == -1 && CompareLists(b, a, 0) == -1 && !PrePrecedes(p, q) && !PrePrecedes(q, p))
  {
    hide IdBefore, CompareIds, SameNumber, Split;
    var a, b := Split(p, '.'), Split(q, '.');
    SplitInjective(p, q);
    var d := ListsCompared(a, b, 0);
    var e := ListsCompared(b, a, 0);
    if d < |a| && d < |b| {
      if e < |a| && e < |b| {
        ListsClash(a, b, e, d);
      }
    }
    SamePlace(a, b, d, e);
    ListsPrecedence(a, b, d);
    ListsPrecedence(b, a, d);
    if d < |a| && d < |b| {
      IdsCompared(a[d], b[d]);
      IdsCompared(b[d], a[d]);
      SameNumberSymmetric(a[d], b[d]);
      if Clash(p, q) {
        var c: nat :| c < |a| && c < |b| && a[..c] == b[..c] && a[c] != b[c] && SameNumber(a[c], b[c]);
        ListsClash(a, b, d, c);
      }
    } else if Clash(p, q) {
      var c: nat :| c < |a| && c < |b| && a[..c] == b[..c] && a[c] != b[c] && SameNumber(a[c], b[c]);
      ListsClash(a, b, d, c);
    }
  }

  lemma SameNumberSymmetric(x: string, y: string)
    ensures SameNumber(x, y) == SameNumber(y, x)
  {
  }

  lemma SamePlace(a: seq<string>, b: seq<string>, d: nat, e: nat)
    requires d <= |a| && d <= |b| && a[..d] == b[..d] && (d == |a| || d == |b| || a[d] != b[d])
    requires e <= |a| && e <= |b| && a[..e] == b[..e] && (e == |a| || e == |b| || a[e] != b[e])
    ensures d == e
  {
    if d < e {
      TakenAt(a, b, e, d);
    } else if e < d {
      TakenAt(a, b, d, e);
    }
  }

  ghost predicate SameCore(a: Tag, b: Tag)
    requires IsTag(a) && IsTag(b)
  {
    Number(a.major) == Number(b.major) && Number(a.minor) == Number(b.minor) && Number(a.patch) == Number(b.patch)
  }

  ghost predicate TagsClash(a: Tag, b: Tag)
    requires IsTag(a) && IsTag(b)
  {
    SameCore(a, b) && a.pre != "" && b.pre != "" && a.pre != b.pre && Clash(a.pre, b.pre)
  }

  /** Swapping the tags negates the comparison exactly when they do not clash. */
  lemma Antisymmetric(a: Tag, b: Tag)
    requires IsTag(a) && IsTag(b)
    ensures CompareTags(b, a) == -CompareTags(a, b) <==> !TagsClash(a, b)
  {
    hide Split, IsPre, ParseDecimal, IsNumeral, CompareLists, Clash, PrePrecedes;
    if SameCore(a, b) && a.pre != "" && b.pre != "" && a.pre != b.pre {
      PresCompared(a.pre, b.pre);
    }
  }

  /** The comparison is the precedence of Semantic Versioning, exactly for tags that do not clash. */
  lemma ComparedAsPrecedence(a: Tag, b: Tag)
    requires IsTag(a) && IsTag(b)
    ensures (CompareTags(a, b) < 0 <==> Precedes(a, b)) && (CompareTags(a, b) > 0 <==> Precedes(b, a)) <==> !TagsClash(a, b)
  {
    hide Split, IsPre, ParseDecimal, IsNumeral, CompareLists, Clash, PrePrecedes;
    if SameCore(a, b) && a.pre != "" && b.pre != "" && a.pre != b.pre {
      PresCompared(a.pre, b.pre);
    } else if SameCore(a, b) {
      PreEdges(a.pre, b.pre);
      PreEdges(b.pre, a.pre);
    }
  }

  lemma PreEdges(p: string, q: string)
    requires p == "" || q == "" || p == q
    ensures PrePrecedes(p, q) <==> p != "" && q == ""
  {
    hide Split, IdBefore;
    IdOrder();
    BeforeIrreflexive(Split(p, '.'), IdBefore);
  }

  /** Tags without leading zeros never clash, and only equal ones compare as equal. */
  lemma CanonicalTags(a: Tag, b: Tag)
    requires IsCanonicalTag(a) && IsCanonicalTag(b)
    ensures !TagsClash(a, b)
    ensures CompareTags(a, b) == 0 <==> a == b
  {
    hide Split, IsPre, ParseDecimal, IsNumeral, CompareLists, PrePrecedes, IsCanonical;
    if SameCore(a, b) {
      CanonicalInjective(a.major, b.major);
      CanonicalInjective(a.minor, b.minor);
      CanonicalInjective(a.patch, b.patch);
      NoClash(a.pre, b.pre);
      if a.pre != "" && b.pre != "" && a.pre != b.pre {
        PresCompared(a.pre, b.pre);
      }
    }
  }

  lemma NoClash(p: string, q: string)
    requires AllCanonical(Split(p, '.')) && AllCanonical(Split(q, '.'))
    ensures !Clash(p, q)
  {
    hide ParseDecimal, IsNumeral, Split;
    var a, b := Split(p, '.'), Split(q, '.');
    forall d: nat | d < |a| && d < |b| && SameNumber(a[d], b[d])
      ensures a[d] == b[d]
    {
      CanonicalInjective(a[d], b[d]);
    }
  }

  /** Precedence is transitive; with the above, the comparison is a total order of canonical tags. */
  lemma PrecedesTransitive(a: Tag, b: Tag, c: Tag)
    requires IsTag(a) && IsTag(b) && IsTag(c) && Precedes(a, b) && Precedes(b, c)
    ensures Precedes(a, c)
  {
    hide Split, IsPre, ParseDecimal, IsNumeral, PrePrecedes;
    if PrePrecedes(a.pre, b.pre) && PrePrecedes(b.pre, c.pre) {
      PrePrecedesTransitive(a.pre, b.pre, c.pre);
    }
  }

  lemma PrePrecedesTransitive(p: string, q: string, r: string)
    requires PrePrecedes(p, q) && PrePrecedes(q, r)
    ensures PrePrecedes(p, r)
  {
    hide Split, IdBefore;
    IdOrder();
    if r != "" {
      BeforeTransitive(Split(p, '.'), Split(q, '.'), Split(r, '.'), IdBefore);
    }
  }

  lemma TotalOrder(a: Tag, b: Tag, c: Tag)
    requires IsCanonicalTag(a) && IsCanonicalTag(b) && IsCanonicalTag(c)
    ensures CompareTags(a, b) == 0 <==> a == b
    ensures CompareTags(b, a) == -CompareTags(a, b)
    ensures CompareTags(a, b) <= 0 && CompareTags(b, c) <= 0 ==> CompareTags(a, c) <= 0
  {
    hide Precedes, TagsClash, CompareTags, AllCanonical, IsCanonical;
    CanonicalTags(a, b);
    CanonicalTags(b, c);
    CanonicalTags(a, c);
    Antisymmetric(a, b);
    ComparedAsPrecedence(a, b);
    ComparedAsPrecedence(b, c);
    ComparedAsPrecedence(a, c);
    if Precedes(a, b) && Precedes(b, c) {
      PrecedesTransitive(a, b, c);
    }
  }

  // ---------- tags as texts ----------

  function Core(t: Tag): string {
    Join([t.major, t.minor, t.patch], ".")
  }

  function TagText(t: Tag): string {
    "v" + Core(t) + (if t.pre == "" then "" else "-" + t.pre)
  }

  lemma CoreChars(t: Tag)
    requires IsTag(t)
    ensures Core(t) != "" && forall k :: 0 <= k < |Core(t)| ==> IsDigit(Core(t)[k]) || Core(t)[k] == '.'
  {
    CoreParts(t);
    hide Core;
  }

  lemma CoreParts(t: Tag)
    ensures Core(t) == t.major + "." + t.minor + "." + t.patch
  {
    assert [t.minor, t.patch][1..] == [t.patch];
    assert Join([t.minor, t.patch], ".") == t.minor + "." + t.patch;
    assert [t.major, t.minor, t.patch][1..] == [t.minor, t.patch];
  }

  /** A written tag is read back, so the order of tags is the order of their texts. */
  lemma TagReadBack(t: Tag)
    requires IsTag(t)
    ensures ParseTag(TagText(t)) == Some(t)
  {
    var text, core := TagText(t), Core(t);
    hide Join, Split, BeforeFirst, AfterFirst, Trim, ParseDecimal;
    CoreChars(t);
    TrimVisible(text);
    SplitJoin([t.major, t.minor, t.patch], '.');
    if t.pre == "" {
      assert text[1..] == core;
      FirstNowhere(core, '-');
    } else {
      assert text[1..] == core + ['-'] + t.pre;
      FirstAt(core, '-', t.pre);
    }
  }

  lemma TextsCompared(a: Tag, b: Tag)
    requires IsTag(a) && IsTag(b)
    ensures CompareTexts(TagText(a), TagText(b)) == CompareTags(a, b)
  {
    hide ParseTag, TagText, CompareTags, IsTag;
    TagReadBack(a);
    TagReadBack(b);
  }

  /** Two tags with leading zeros that each come before the other. */
  lemma LeadingZeros()
    ensures CompareTexts("v1.0.0-01", "v1.0.0-1") == -1 && CompareTexts("v1.0.0-1", "v1.0.0-01") == -1
  {
    var a, b := Tag("1", "0", "0", "01"), Tag("1", "0", "0", "1");
    hide CompareTags, CompareTexts, TagText, IsTag;
    LeadingZerosClash();
    TextsCompared(a, b);
    TextsCompared(b, a);
    TextOf(a);
    TextOf(b);
    assert "v1.0.0-" + "01" == "v1.0.0-01" && "v1.0.0-" + "1" == "v1.0.0-1";
  }

  lemma TextOf(t: Tag)
    requires t.major == "1" && t.minor == "0" && t.patch == "0" && t.pre != ""
    ensures TagText(t) == "v1.0.0-" + t.pre
  {
    CoreParts(t);
    hide Core;
  }

  lemma LeadingZerosClash()
    ensures var a, b := Tag("1", "0", "0", "01"), Tag("1", "0", "0", "1");
      IsTag(a) && IsTag(b) && CompareTags(a, b) == -1 && CompareTags(b, a) == -1
  {
    var p, q := "01", "1";
    SplitJoin([p], '.');
    SplitJoin([q], '.');
    assert p[..1] == "0" && q[..0] == "" && p[..1][..0] == "";
    assert ParseDecimal(q) == 1 && ParseDecimal(p) == 1;
  }
}
