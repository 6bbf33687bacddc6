/** Switch names (switch/switch.go switchNameValid): a prefix and a number, in one spelling. */
module SwitchName {
  import opened Wrappers
  import opened Decimal
  import opened NicWiring

  const HALF: int := 0x8000_0000

  function Prefix(kind: SwitchType): string {
    if kind == IfBridge then "bridge" else "bnet"
  }

  predicate ValidChar(c: char) {
    c == '-' || c == '_' || '0' <= c <= '9' || 'A' <= c <= 'Z' || 'a' <= c <= 'z'
  }

  predicate NameValid(kind: SwitchType, name: string) {
    && name != ""
    && (forall i :: 0 <= i < |name| ==> ValidChar(name[i]))
    && Prefix(kind) <= name
    && var digits := name[|Prefix(kind)|..];
       var num := ParseInt(digits, HALF);
       num.Some? && digits == FormatInt(num.value)
  }

  function NameOf(kind: SwitchType, n: int): string {
    Prefix(kind) + FormatInt(n)
  }

  lemma ParseOfFormat(n: int)
    requires -HALF <= n < HALF
    ensures ParseInt(FormatInt(n), HALF) == Some(n)
  {
    ValueOfFormat(if n < 0 then -n else n);
    if n < 0 {
      ParseNegative(Format(-n), HALF);
    } else {
      ParsePlain(Format(n), HALF);
    }
  }

  lemma FormatCharsValid(n: int)
    ensures forall i :: 0 <= i < |FormatInt(n)| ==> ValidChar(FormatInt(n)[i])
  {
    var digits := Format(if n < 0 then -n else n);
    assert forall i :: 0 <= i < |digits| ==> IsDigit(digits[i]);
  }

  /** The names of 32-bit numbers are valid, negative ones included. */
  lemma NumbersAreNamed(kind: SwitchType, n: int)
    requires -HALF <= n < HALF
    ensures NameValid(kind, NameOf(kind, n))
  {
    ParseOfFormat(n);
    FormatCharsValid(n);
    assert NameOf(kind, n)[|Prefix(kind)|..] == FormatInt(n);
  }

  /** Valid names are exactly the prefix followed by the canonical decimal of a 32-bit
      signed integer, each name for one number: no leading zeros, no `+`, no `-0`. */
  lemma NameValidExactly(kind: SwitchType, name: string)
    ensures NameValid(kind, name) <==> exists n :: -HALF <= n < HALF && name == NameOf(kind, n)
    ensures NameValid(kind, name) <==>
            exists n :: -0x8000_0000 <= n < 0x8000_0000 &&
              name == (if kind == IfBridge then "bridge" else "bnet") + FormatInt(n)
    ensures forall m, n :: name == NameOf(kind, m) && name == NameOf(kind, n) ==> m == n
  {
    if NameValid(kind, name) {
      var digits := name[|Prefix(kind)|..];
      var n := ParseInt(digits, HALF).value;
      assert name == NameOf(kind, n);
    }
    if n :| -HALF <= n < HALF && name == NameOf(kind, n) {
      NumbersAreNamed(kind, n);
    }
    assert forall n :: NameOf(kind, n) == (if kind == IfBridge then "bridge" else "bnet") + FormatInt(n);
    forall m, n | name == NameOf(kind, m) && name == NameOf(kind, n)
      ensures m == n
    {
      assert NameOf(kind, m)[|Prefix(kind)|..] == FormatInt(m);
      assert NameOf(kind, n)[|Prefix(kind)|..] == FormatInt(n);
      FormatIntInjective(m, n);
    }
  }

  /** A name cannot be valid for both types. */
  lemma TypesDoNotShareNames(name: string)
    requires NameValid(IfBridge, name)
    ensures !NameValid(NgBridge, name)
  {
    assert name[1] == "bridge"[1];
  }
}
