/** Object keys of src/services/storageService.js: built here, recognised when a client sends them back. */
module ObjectKeys {
  // ---------------------------------------------------------------- decimal ids

  const DIGITS := "0123456789"

  function Decimal(n: nat): (s: string)
    ensures IsNumeral(s)
  {
    if n < 10 then [DIGITS[n]] else Decimal(n / 10) + [DIGITS[n % 10]]
  }

  predicate IsDigit(c: char) {
    '0' <= c <= '9'
  }

  predicate IsNumeral(s: string) {
    s != [] && forall i :: 0 <= i < |s| ==> IsDigit(s[i])
  }

  function DigitValue(c: char): nat
    requires IsDigit(c)
  {
    c as int - '0' as int
  }

  /** `BigInt(s)`. */
  function NumeralValue(s: string): nat
    requires IsNumeral(s)
  {
    var d := DigitValue(s[|s| - 1]);
    if |s| == 1 then d else 10 * NumeralValue(s[..|s| - 1]) + d
  }

  /** No leading zero: the spelling `String(id)` produces for a positive id. */
  predicate IsCanonical(s: string) {
    IsNumeral(s) && s[0] != '0'
  }

  lemma {:induction false} ValueOfDecimal(n: nat)
    ensures NumeralValue(Decimal(n)) == n
  {
    if n >= 10 {
      ValueOfDecimal(n / 10);
      assert Decimal(n)[..|Decimal(n)| - 1] == Decimal(n / 10);
    }
  }

  lemma DigitSpelled(c: char)
    requires IsDigit(c)
    ensures DigitValue(c) < 10 && DIGITS[DigitValue(c)] == c
  {
    assert DigitValue(c) in [0, 1, 2, 3, 4, 5, 6, 7, 8, 9];
  }

  lemma DecimalStep(tens: nat, d: nat)
    requires tens > 0 && d < 10
    ensures Decimal(10 * tens + d) == Decimal(tens) + [DIGITS[d]]
  {
    assert (10 * tens + d) / 10 == tens && (10 * tens + d) % 10 == d;
  }

  lemma NumeralStep(s: string)
    requires IsCanonical(s) && |s| > 1
    ensures IsCanonical(s[..|s| - 1])
    ensures NumeralValue(s) == 10 * NumeralValue(s[..|s| - 1]) + DigitValue(s[|s| - 1])
    ensures s == s[..|s| - 1] + [s[|s| - 1]]
  {
  }

  lemma OneMoreDigit(s: string, tens: nat)
    requires IsCanonical(s) && |s| > 1 && tens > 0
    requires tens == NumeralValue(s[..|s| - 1]) && Decimal(tens) == s[..|s| - 1]
    ensures NumeralValue(s) > 0 && Decimal(NumeralValue(s)) == s
  {
    DigitSpelled(s[|s| - 1]);
    NumeralStep(s);
    DecimalStep(tens, DigitValue(s[|s| - 1]));
  }

  lemma {:induction false} CanonicalIsDecimal(s: string)
    requires IsCanonical(s)
    ensures NumeralValue(s) > 0 && Decimal(NumeralValue(s)) == s
  {
    if |s| > 1 {
      NumeralStep(s);
      CanonicalIsDecimal(s[..|s| - 1]);
      OneMoreDigit(s, NumeralValue(s[..|s| - 1]));
    } else {
      OneDigit(s);
    }
  }

  lemma OneDigit(s: string)
    requires IsCanonical(s) && |s| == 1
    ensures NumeralValue(s) > 0 && Decimal(NumeralValue(s)) == s
  {
    DigitSpelled(s[0]);
    assert s == [s[0]];
  }

  /** Two canonical spellings of one id are the same string. */
  lemma CanonicalInjective(s: string, t: string)
    requires IsCanonical(s) && IsCanonical(t) && NumeralValue(s) == NumeralValue(t)
    ensures s == t
  {
    CanonicalIsDecimal(s);
    CanonicalIsDecimal(t);
  }

  // ---------------------------------------------------------------- filenames

  predicate IsAllowed(c: char) {
    'A' <= c <= 'Z' || 'a' <= c <= 'z' || '0' <= c <= '9' || c == '.' || c == '_' || c == '-'
  }

  /** `path.basename` on POSIX: trailing slashes go, then everything up to the last slash. */
  function Basename(path: string): string {
    LastSegment(TrimSlashes(path))
  }

  function TrimSlashes(s: string): string {
    if s != [] && s[|s| - 1] == '/' then TrimSlashes(s[..|s| - 1]) else s
  }

  function LastSegment(s: string): string {
    if s == [] || s[|s| - 1] == '/' then [] else LastSegment(s[..|s| - 1]) + [s[|s| - 1]]
  }

  function ReplaceOthers(s: string): string {
    seq(|s|, i requires 0 <= i < |s| => if IsAllowed(s[i]) then s[i] else '_')
  }

  function StripDots(s: string): string {
    if s != [] && s[0] == '.' then StripDots(s[1..]) else s
  }

  function OrDocument(s: string): string {
    if s == [] then "document" else s
  }

  function SanitiseFilename(filename: string): string {
    var cleaned := OrDocument(StripDots(ReplaceOthers(Basename(OrDocument(filename)))));
    if |cleaned| > 120 then cleaned[..120] else cleaned
  }

  predicate IsSafeName(s: string) {
    1 <= |s| <= 120 && s[0] != '.' && forall i :: 0 <= i < |s| ==> IsAllowed(s[i])
  }

  lemma {:induction false} StripDotsKeeps(s: string)
    ensures StripDots(s) == [] || StripDots(s)[0] != '.'
    ensures forall i :: 0 <= i < |StripDots(s)| ==> StripDots(s)[i] in s
  {
    if s != [] && s[0] == '.' {
      StripDotsKeeps(s[1..]);
    }
  }

  /** Whatever the client calls its file, the last segment is 1 to 120 safe characters, never hidden. */
  lemma SanitisedIsSafe(filename: string)
    ensures IsSafeName(SanitiseFilename(filename))
  {
    StripDotsKeeps(ReplaceOthers(Basename(OrDocument(filename))));
  }

  lemma {:induction false} PlainSegment(base: string)
    requires NoSlash(base)
    ensures LastSegment(base) == base && (base != [] ==> TrimSlashes(base) == base)
  {
    if base != [] {
      PlainSegment(base[..|base| - 1]);
      assert base == base[..|base| - 1] + [base[|base| - 1]];
    }
  }

  lemma {:induction false} SegmentAfterSlash(dir: string, base: string)
    requires NoSlash(base)
    ensures LastSegment(dir + "/" + base) == base
  {
    var path := dir + "/" + base;
    if base == [] {
      assert path[|path| - 1] == '/';
    } else {
      assert path[..|path| - 1] == dir + "/" + base[..|base| - 1];
      assert base == base[..|base| - 1] + [base[|base| - 1]];
      SegmentAfterSlash(dir, base[..|base| - 1]);
    }
  }

  /** Directories in front of the name and slashes after it make no difference. */
  lemma DirectoriesIgnored(dir: string, base: string)
    requires NoSlash(base) && base != ""
    ensures SanitiseFilename(dir + "/" + base) == SanitiseFilename(base)
    ensures SanitiseFilename(base + "/") == SanitiseFilename(base)
  {
    var path := dir + "/" + base;
    assert path[|path| - 1] == base[|base| - 1];
    SegmentAfterSlash(dir, base);
    PlainSegment(base);
    assert (base + "/")[..|base + "/"| - 1] == base;
    assert TrimSlashes(base + "/") == TrimSlashes(base);
  }

  /** An ASCII letter or digit, a dot, an underscore or a hyphen. */
  predicate IsPlain(c: char) {
    65 <= c as int <= 90 || 97 <= c as int <= 122 || 48 <= c as int <= 57 || c as int in {46, 95, 45}
  }

  lemma PlainIsAllowed(c: char)
    ensures IsPlain(c) <==> IsAllowed(c)
  {
  }

  lemma {:induction false} DotsStripped(s: string, k: nat)
    requires k <= |s| && (forall i :: 0 <= i < k ==> s[i] == '.') && (k < |s| ==> s[k] != '.')
    ensures StripDots(s) == s[k..]
  {
    if k > 0 {
      assert forall i :: 0 <= i < k - 1 ==> s[1..][i] == s[i + 1];
      DotsStripped(s[1..], k - 1);
    }
  }

  /**
   * What becomes of a name without directories: its leading dots go, each other
   * character stays if it is plain and becomes an underscore if not, and 120 are
   * kept. A name of dots alone, or none, becomes "document".
   */
  lemma SanitisedExactly(base: string, dots: nat)
    requires NoSlash(base) && dots <= |base| && (forall i :: 0 <= i < dots ==> base[i] == '.')
    requires dots < |base| ==> base[dots] != '.'
    ensures dots == |base| ==> SanitiseFilename(base) == "document"
    ensures dots < |base| ==>
              var s := SanitiseFilename(base);
              && |s| == (if |base| - dots > 120 then 120 else |base| - dots)
              && forall i :: 0 <= i < |s| ==> s[i] == if IsPlain(base[dots + i]) then base[dots + i] else '_'
  {
    if base == "" {
      PlainSegment("document");
      DotsStripped(ReplaceOthers("document"), 0);
      assert ReplaceOthers("document") == "document";
    } else {
      PlainSegment(base);
      DotsStripped(ReplaceOthers(base), dots);
      CharactersReplaced(base);
    }
  }

  lemma CharactersReplaced(s: string)
    ensures forall i :: 0 <= i < |s| ==> ReplaceOthers(s)[i] == if IsPlain(s[i]) then s[i] else '_'
  {
    forall i | 0 <= i < |s| ensures IsPlain(s[i]) <==> IsAllowed(s[i]) {
      PlainIsAllowed(s[i]);
    }
  }

  /** So a name that is safe already is kept as it is. */
  lemma SafeNameKept(name: string)
    requires 1 <= |name| <= 120 && name[0] != '.' && forall i :: 0 <= i < |name| ==> IsPlain(name[i])
    ensures SanitiseFilename(name) == name
  {
    forall i | 0 <= i < |name| ensures name[i] != '/' {
      assert IsPlain(name[i]);
    }
    SanitisedExactly(name, 0);
  }

  // ---------------------------------------------------------------- keys

  const PREFIX := "patents/"

  predicate IsHexOrDash(c: char) {
    '0' <= c <= '9' || 'a' <= c <= 'f' || 'A' <= c <= 'F' || c == '-'
  }

  predicate IsUuid(s: string) {
    |s| == 36 && forall i :: 0 <= i < |s| ==> IsHexOrDash(s[i])
  }

  function BuildObjectKey(userId: nat, uuid: string, filename: string): string {
    PREFIX + Decimal(userId) + "/" + uuid + "/" + SanitiseFilename(filename)
  }

  predicate KeyBelongsToUser(key: string, userId: nat) {
    PREFIX + Decimal(userId) + "/" <= key
  }

  function Join(owner: string, uuid: string, name: string): string {
    PREFIX + owner + "/" + uuid + "/" + name
  }

  /** The request validator's pattern `^patents/\d+/[0-9a-fA-F-]{36}/[A-Za-z0-9._-]+$`, segment by segment. */
  predicate FitsPattern(owner: string, uuid: string, name: string) {
    IsNumeral(owner) && IsUuid(uuid) && name != [] && forall i :: 0 <= i < |name| ==> IsAllowed(name[i])
  }

  predicate NoSlash(s: string) {
    '/' !in s
  }

  function Split(s: string): (parts: seq<string>)
    ensures parts != []
  {
    if s == [] then [[]]
    else
      var parts := Split(s[..|s| - 1]);
      if s[|s| - 1] == '/' then parts + [[]]
      else parts[..|parts| - 1] + [parts[|parts| - 1] + [s[|s| - 1]]]
  }

  lemma {:induction false} SplitSegment(a: string, b: string)
    requires NoSlash(b)
    ensures Split(a + "/" + b) == Split(a) + [b]
  {
    var s := a + "/" + b;
    if b == [] {
      assert s[..|s| - 1] == a;
    } else {
      var init := b[..|b| - 1];
      assert s[..|s| - 1] == a + "/" + init;
      assert b == init + [b[|b| - 1]];
      SplitSegment(a, init);
    }
  }

  lemma {:induction false} SplitPlain(a: string)
    requires NoSlash(a)
    ensures Split(a) == [a]
  {
    if a != [] {
      SplitPlain(a[..|a| - 1]);
      assert a == a[..|a| - 1] + [a[|a| - 1]];
    }
  }

  /** A segment followed by a slash is determined by the text it begins. */
  lemma SegmentDetermined(a: string, b: string, rest: string)
    requires NoSlash(a) && NoSlash(b)
    ensures a + "/" <= b + "/" + rest <==> a == b
  {
    var whole := b + "/" + rest;
    assert whole == (b + "/") + rest;
    assert whole[|b|] == '/' && whole[..|b|] == b;
    if a + "/" <= whole {
      assert whole[|a|] == (a + "/")[|a|] == '/';
      assert whole[..|a|] == (a + "/")[..|a|] == a;
      assert forall i :: 0 <= i < |a| ==> whole[i] == a[i];
      assert forall i :: 0 <= i < |b| ==> whole[i] == b[i];
    }
  }

  lemma PrefixMatters(a: string, b: string)
    ensures PREFIX + a <= PREFIX + b <==> a <= b
  {
    if PREFIX + a <= PREFIX + b {
      assert a == (PREFIX + a)[|PREFIX|..] == (PREFIX + b)[|PREFIX|..][..|a|] == b[..|a|];
    }
  }

  lemma DecimalHasNoSlash(n: nat)
    ensures NoSlash(Decimal(n))
  {
  }

  /** A key in the validator's pattern belongs to a user exactly when its second segment spells that user's id. */
  lemma OwnerIsSecondSegment(owner: string, uuid: string, name: string, v: nat)
    requires FitsPattern(owner, uuid, name)
    ensures KeyBelongsToUser(Join(owner, uuid, name), v) <==> owner == Decimal(v)
    ensures Split(Join(owner, uuid, name)) == ["patents", owner, uuid, name]
  {
    var rest := uuid + "/" + name;
    DecimalHasNoSlash(v);
    SegmentDetermined(Decimal(v), owner, rest);
    PrefixMatters(Decimal(v) + "/", owner + "/" + rest);
    assert Join(owner, uuid, name) == PREFIX + (owner + "/" + rest);
    assert PREFIX + Decimal(v) + "/" == PREFIX + (Decimal(v) + "/");
    SplitJoin(owner, uuid, name);
  }

  lemma SplitOwner(owner: string)
    requires NoSlash(owner)
    ensures Split(PREFIX + owner) == ["patents", owner]
  {
    SplitPlain("patents");
    SplitSegment("patents", owner);
    assert PREFIX == "patents" + "/";
  }

  lemma SplitJoin(owner: string, uuid: string, name: string)
    requires NoSlash(owner) && NoSlash(uuid) && NoSlash(name)
    ensures Split(Join(owner, uuid, name)) == ["patents", owner, uuid, name]
  {
    var two := PREFIX + owner;
    var three := two + "/" + uuid;
    SplitOwner(owner);
    SplitSegment(two, uuid);
    assert Split(three) == ["patents", owner] + [uuid];
    SplitSegment(three, name);
    assert Split(three + "/" + name) == ["patents", owner, uuid] + [name];
  }

  /**
   * Object keys round-trip: for every filename the built key is accepted by the
   * request validator, has exactly four segments, and belongs to a user exactly
   * when it was built for that user.
   */
  lemma KeysRoundTrip(u: nat, v: nat, uuid: string, filename: string)
    requires IsUuid(uuid)
    ensures var key := BuildObjectKey(u, uuid, filename);
            && key == Join(Decimal(u), uuid, SanitiseFilename(filename))
            && FitsPattern(Decimal(u), uuid, SanitiseFilename(filename))
            && Split(key) == ["patents", Decimal(u), uuid, SanitiseFilename(filename)]
            && IsSafeName(SanitiseFilename(filename))
            && (KeyBelongsToUser(key, v) <==> u == v)
  {
    SanitisedIsSafe(filename);
    OwnerIsSecondSegment(Decimal(u), uuid, SanitiseFilename(filename), v);
    ValueOfDecimal(u);
    ValueOfDecimal(v);
  }
}
