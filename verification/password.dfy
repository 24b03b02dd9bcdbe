/**
  `PasswordStrengthChecker`: five character-class and length indicators, the
  strength verdict that combines them, and `isValid`, which counts the
  indicators that hold.
 */
module PasswordStrength {
  import opened JsValues

  /** The default minimum length, `defaultNum = 8`. */
  const DefaultMinLength: int := 8

  /** The characters the special-character pattern lists. */
  const SpecialChars: set<char> :=
    {'!', '@', '#', '$', '%', '^', '&', '*', '(', ')', '_', '+', '-', '=', '[', ']',
     '{', '}', ';', '\'', ':', '"', '\\', '|', ',', '.', '<', '>', '/', '?'}

  datatype Checker = Checker(password: string, defaultNum: int)

  /**
    `new PasswordStrengthChecker(password, defaultNum = 8)`: an omitted
    minimum length (`None`, i.e. `undefined`) takes the default.
   */
  function New(password: string, defaultNum: Option<int>): (c: Checker)
    ensures c.password == password
    ensures defaultNum.None? ==> c.defaultNum == DefaultMinLength
    ensures defaultNum.Some? ==> c.defaultNum == defaultNum.value
  {
    Checker(password, if defaultNum.Some? then defaultNum.value else DefaultMinLength)
  }

  function SetPassword(c: Checker, password: string): (r: Checker)
    ensures r.password == password && r.defaultNum == c.defaultNum
  {
    c.(password := password)
  }

  predicate IsSpecial(ch: char) { ch in SpecialChars }
  predicate IsDigit(ch: char) { '0' <= ch <= '9' }
  predicate IsLowerLetter(ch: char) { 'a' <= ch <= 'z' }

  /** A character-class pattern without anchors: true when some character of `s` is in the class. */
  function AnyChar(s: string, inClass: char -> bool): (b: bool)
    ensures b <==> exists i :: 0 <= i < |s| && inClass(s[i])
  {
    if s == [] then false
    else if inClass(s[0]) then true
    else
      var b := AnyChar(s[1..], inClass);
      assert forall i :: 1 <= i < |s| ==> s[i] == s[1..][i - 1];
      b
  }

  function ContainsAtLeastOneSpecialChar(password: string): bool { AnyChar(password, IsSpecial) }
  function ContainsNumber(password: string): bool { AnyChar(password, IsDigit) }
  function ContainsLowercaseChars(password: string): bool { AnyChar(password, IsLowerLetter) }
  function ContainsUppercaseChars(password: string): bool { AnyChar(password, IsUpper) }

  /** `containsAtLeastLengthChars(password, length = this.defaultNum)`. */
  function ContainsAtLeastLengthChars(password: string, length: int): bool {
    |password| >= length
  }

  /** The object `checkPasswordStrength` returns, one field per indicator in the order they are set. */
  datatype Strength = Strength(special: bool, eight: bool, number: bool, lower: bool, upper: bool, strong: bool)

  function CheckPasswordStrength(c: Checker): (r: Strength)
    ensures r.special <==> exists i :: 0 <= i < |c.password| && c.password[i] in SpecialChars
    ensures r.eight <==> |c.password| >= c.defaultNum
    ensures r.number <==> exists i :: 0 <= i < |c.password| && '0' <= c.password[i] <= '9'
    ensures r.lower <==> exists i :: 0 <= i < |c.password| && 'a' <= c.password[i] <= 'z'
    ensures r.upper <==> exists i :: 0 <= i < |c.password| && 'A' <= c.password[i] <= 'Z'
    ensures r.strong <==> r.special && r.eight && r.number && r.lower && r.upper
  {
    var special := ContainsAtLeastOneSpecialChar(c.password);
    var eight := ContainsAtLeastLengthChars(c.password, c.defaultNum);
    var number := ContainsNumber(c.password);
    var lower := ContainsLowercaseChars(c.password);
    var upper := ContainsUppercaseChars(c.password);
    Strength(special, eight, number, lower, upper, special && eight && number && lower && upper)
  }

  /** The values `for (let key in indicators)` visits. */
  function Indicators(s: Strength): seq<bool> {
    [s.special, s.eight, s.number, s.lower, s.upper, s.strong]
  }

  function CountTrue(bs: seq<bool>): (n: nat)
    ensures n <= |bs|
  {
    if bs == [] then 0 else CountTrue(bs[..|bs| - 1]) + (if bs[|bs| - 1] then 1 else 0)
  }

  /** All of a sequence of flags hold exactly when counting them reaches its length. */
  lemma {:induction false} CountTrueFull(bs: seq<bool>)
    ensures CountTrue(bs) == |bs| <==> forall k :: 0 <= k < |bs| ==> bs[k]
  {
    if bs != [] {
      var init := bs[..|bs| - 1];
      CountTrueFull(init);
      assert forall k :: 0 <= k < |init| ==> init[k] == bs[k];
    }
  }

  /**
    `isValid()`: counts the indicators that hold and compares the count with
    the number of indicators. Since the verdict is one of them and is their
    conjunction, this is the verdict itself.
   */
  method IsValid(c: Checker) returns (valid: bool)
    ensures valid <==> forall k :: 0 <= k < |Indicators(CheckPasswordStrength(c))| ==> Indicators(CheckPasswordStrength(c))[k]
    ensures valid <==> CheckPasswordStrength(c).strong
  {
    var indicators := Indicators(CheckPasswordStrength(c));
    var expected := |indicators|;
    var count := 0;
    for i := 0 to |indicators|
      invariant count == CountTrue(indicators[..i])
    {
      assert indicators[..i + 1][..i] == indicators[..i];
      if indicators[i] {
        count := count + 1;
      }
    }
    assert indicators[..|indicators|] == indicators;
    CountTrueFull(indicators);
    valid := expected == count;
  }

  /** Appending characters never turns an indicator from true to false. */
  lemma AppendingKeepsIndicators(c: Checker, more: string)
    ensures var before := CheckPasswordStrength(c);
      var after := CheckPasswordStrength(SetPassword(c, c.password + more));
      && (before.special ==> after.special) && (before.eight ==> after.eight)
      && (before.number ==> after.number) && (before.lower ==> after.lower)
      && (before.upper ==> after.upper) && (before.strong ==> after.strong)
  {
    var p := c.password;
    assert forall i :: 0 <= i < |p| ==> (p + more)[i] == p[i];
  }
}
