/**
 * The names of the entries of a state snapshot. The source builds them with
 * the format string `layer_{i}_{field}`, where `i` is written in decimal and
 * `field` is the attribute name. Names are proved to determine the (index,
 * role) pair they were built from, so two different tensors of a stack can
 * never share an entry.
 */
module StateKeys {
  import opened Wrappers
  import opened Layers

  /** A snapshot entry: which layer, and which of its tensors. */
  datatype Key = Key(index: nat, role: Role)

  /** The attribute name the source uses for each role. */
  function RoleName(r: Role): string {
    match r
    case Weight => "W"
    case Bias => "B"
    case Scale => "scale"
    case Shift => "shift"
    case RunningMean => "running_mean"
    case RunningVar => "running_var"
  }

  /** The role whose attribute name is `s`, if any. */
  function RoleNamed(s: string): (r: Option<Role>)
    ensures r.Some? ==> RoleName(r.value) == s
  {
    if s == "W" then Some(Weight)
    else if s == "B" then Some(Bias)
    else if s == "scale" then Some(Scale)
    else if s == "shift" then Some(Shift)
    else if s == "running_mean" then Some(RunningMean)
    else if s == "running_var" then Some(RunningVar)
    else None
  }

  predicate IsDigit(c: char) {
    '0' <= c <= '9'
  }

  predicate AllDigits(s: string) {
    forall k :: 0 <= k < |s| ==> IsDigit(s[k])
  }

  /** The decimal rendering of `n`, as Python's `str` of an int writes it. */
  function Decimal(n: nat): (s: string)
    ensures |s| > 0 && AllDigits(s)
  {
    var last := [('0' as int + n % 10) as char];
    if n < 10 then last else Decimal(n / 10) + last
  }

  /** The number a string of decimal digits denotes. */
  function DecimalValue(s: string): nat
    requires AllDigits(s)
  {
    if s == [] then 0
    else DecimalValue(s[..|s| - 1]) * 10 + (s[|s| - 1] as int - '0' as int)
  }

  lemma {:induction false} DecimalValueOfDecimal(n: nat)
    ensures DecimalValue(Decimal(n)) == n
  {
    if n >= 10 {
      DecimalValueOfDecimal(n / 10);
      var s := Decimal(n);
      assert s[..|s| - 1] == Decimal(n / 10);
    }
  }

  /** The position of the first `_` in `s`, or `|s|` when there is none. */
  function FirstUnderscore(s: string): (j: nat)
    ensures j <= |s|
    ensures j < |s| ==> s[j] == '_'
    ensures forall k :: 0 <= k < j ==> s[k] != '_'
  {
    if s == [] || s[0] == '_' then 0 else 1 + FirstUnderscore(s[1..])
  }

  const PREFIX: string := "layer_"

  /** Reads a snapshot entry name back into the key it names. */
  function ParseKey(name: string): Option<Key> {
    if |name| < |PREFIX| || name[..|PREFIX|] != PREFIX then None
    else ParseIndexed(name[|PREFIX|..])
  }

  /** Reads the `{i}_{field}` part of an entry name. */
  function ParseIndexed(rest: string): Option<Key> {
    var j := FirstUnderscore(rest);
    if j == 0 || j == |rest| || !AllDigits(rest[..j]) then None
    else
      match RoleNamed(rest[j + 1..])
      case None => None
      case Some(r) => Some(Key(DecimalValue(rest[..j]), r))
  }

  lemma RoleNamedOfName(r: Role)
    ensures RoleNamed(RoleName(r)) == Some(r)
  {
  }

  lemma FirstUnderscoreAfterDigits(digits: string, tail: string)
    requires AllDigits(digits)
    ensures FirstUnderscore(digits + "_" + tail) == |digits|
  {
    var s := digits + "_" + tail;
    assert s[|digits|] == '_';
    assert forall k :: 0 <= k < |digits| ==> s[k] == digits[k];
  }

  lemma ParseIndexedOfParts(digits: string, r: Role)
    requires |digits| > 0 && AllDigits(digits)
    ensures ParseIndexed(digits + "_" + RoleName(r)) == Some(Key(DecimalValue(digits), r))
  {
    var rest := digits + "_" + RoleName(r);
    FirstUnderscoreAfterDigits(digits, RoleName(r));
    assert rest[..|digits|] == digits;
    assert rest[|digits| + 1..] == RoleName(r);
    RoleNamedOfName(r);
  }

  lemma ParseKeyOfParts(digits: string, r: Role)
    requires |digits| > 0 && AllDigits(digits)
    ensures ParseKey(PREFIX + digits + "_" + RoleName(r)) == Some(Key(DecimalValue(digits), r))
  {
    var name := PREFIX + digits + "_" + RoleName(r);
    assert name == PREFIX + (digits + "_" + RoleName(r));
    assert name[..|PREFIX|] == PREFIX;
    assert name[|PREFIX|..] == digits + "_" + RoleName(r);
    ParseIndexedOfParts(digits, r);
  }

  /** The entry name `layer_{i}_{field}` of key `k`. */
  function KeyName(k: Key): string {
    PREFIX + Decimal(k.index) + "_" + RoleName(k.role)
  }

  /** Parsing an entry name gives back the key it was built from. */
  lemma KeyNameParses(k: Key)
    ensures ParseKey(KeyName(k)) == Some(k)
  {
    DecimalValueOfDecimal(k.index);
    ParseKeyOfParts(Decimal(k.index), k.role);
  }

  /** Different keys have different entry names. */
  lemma KeyNamesDistinct()
    ensures forall a, b :: KeyName(a) == KeyName(b) ==> a == b
  {
    forall a, b | KeyName(a) == KeyName(b) ensures a == b {
      KeyNameParses(a);
      KeyNameParses(b);
    }
  }
}
