/**
 * The keyboard state of a Sketch context: `keyMap`, `keyName`, the initial `keys`
 * record and the update `keypress` makes. A JavaScript object is indexed by property
 * names, which are strings: `keys[code]` uses the decimal spelling of the key code.
 */
module SketchKeys {

  /** The key codes of `keyMap`, ascending (the order `for ... in` visits them). */
  const KeyCodes: seq<int> := [8, 9, 13, 16, 27, 32, 37, 38, 39, 40]

  /** The names `keyMap` gives them, position by position. */
  const KeyNames: seq<string> :=
    ["BACKSPACE", "TAB", "ENTER", "SHIFT", "ESCAPE", "SPACE", "LEFT", "UP", "RIGHT", "DOWN"]

  /** `keyMap` */
  function KeyMap(): (r: map<int, string>)
    ensures r.Keys == set i | 0 <= i < |KeyCodes| :: KeyCodes[i]
    ensures forall i :: 0 <= i < |KeyCodes| ==> r[KeyCodes[i]] == KeyNames[i]
  {
    KeyCodesAscend();
    map i | 0 <= i < |KeyCodes| :: KeyCodes[i] := KeyNames[i]
  }

  /** The codes are listed in ascending order, so each is listed once. */
  lemma KeyCodesAscend()
    ensures forall i, j :: 0 <= i < j < |KeyCodes| ==> KeyCodes[i] < KeyCodes[j]
  {
  }

  /** `String.fromCharCode(code)`: the code is taken modulo 2^16 (ToUint16). A lone
      surrogate unit is not a character of its own here and becomes U+FFFD. */
  function FromCharCode(code: int): (r: char)
    ensures var u := code % 0x1_0000;
            (0xD800 <= u < 0xE000 ==> r == '�') && (!(0xD800 <= u < 0xE000) ==> r as int == u)
  {
    var u := code % 0x1_0000;
    if 0xD800 <= u < 0xE000 then '�' else u as char
  }

  /** `keyName(code)`: the mapped name for the ten codes of `keyMap`, otherwise the
      one-character string of the code. Mapped names are longer than one character,
      so the two cases never produce the same string. */
  function KeyName(code: int): (r: string)
    ensures code in KeyMap() ==> r == KeyMap()[code] && |r| > 1
    ensures code !in KeyMap() ==> r == [FromCharCode(code)]
  {
    if code in KeyMap() then KeyMap()[code] else [FromCharCode(code)]
  }

  function DigitChar(d: int): (r: char)
    requires 0 <= d < 10
    ensures '0' <= r <= '9'
  {
    ('0' as int + d) as char
  }

  predicate AllDigits(s: string) {
    forall i :: 0 <= i < |s| ==> '0' <= s[i] <= '9'
  }

  /** The decimal digits of a natural number, most significant first. */
  function Digits(n: nat): (r: string)
    ensures |r| >= 1 && AllDigits(r)
  {
    if n < 10 then [DigitChar(n)] else Digits(n / 10) + [DigitChar(n % 10)]
  }

  /** The property name a number becomes: its decimal spelling. */
  function DecimalString(n: int): (r: string)
    ensures |r| >= 1
  {
    if n < 0 then "-" + Digits(-n) else Digits(n)
  }

  /** Reference definition: the value of a string of decimal digits. */
  function ParseDigits(s: string): nat
    requires AllDigits(s)
  {
    if |s| == 0 then 0 else 10 * ParseDigits(s[..|s| - 1]) + (s[|s| - 1] as int - '0' as int)
  }

  /** Reading the digits back gives the number. */
  lemma {:induction false} DigitsRoundTrip(n: nat)
    ensures ParseDigits(Digits(n)) == n
  {
    if n >= 10 {
      var s := Digits(n);
      assert s[..|s| - 1] == Digits(n / 10);
      DigitsRoundTrip(n / 10);
    }
  }

  lemma DigitsInjective(m: nat, n: nat)
    requires Digits(m) == Digits(n)
    ensures m == n
  {
    DigitsRoundTrip(m);
    DigitsRoundTrip(n);
  }

  /** The spelling starts with a minus sign exactly for a negative number. */
  lemma SignShows(n: int)
    ensures n < 0 <==> DecimalString(n)[0] == '-'
  {
    if n < 0 {
      assert ("-" + Digits(-n))[0] == '-';
    } else {
      assert '0' <= Digits(n)[0] <= '9';
    }
  }

  /** Different codes have different property names, so `keys[code]` never mixes two codes. */
  lemma DecimalStringInjective(m: int, n: int)
    requires DecimalString(m) == DecimalString(n)
    ensures m == n
  {
    SignShows(m);
    SignShows(n);
    if m < 0 {
      var dm, dn := Digits(-m), Digits(-n);
      assert ("-" + dm)[1..] == dm && ("-" + dn)[1..] == dn;
      DigitsInjective(-m, -n);
    } else {
      DigitsInjective(m, n);
    }
  }

  /** The names `keyMap` maps to. */
  function MappedNames(): set<string> {
    set i | 0 <= i < |KeyNames| :: KeyNames[i]
  }

  /** Every mapped name initially false, as the constructor leaves `keys`. */
  function AllReleased(): (r: map<string, bool>)
    ensures r.Keys == KeyMap().Values
    ensures forall k :: k in r ==> !r[k]
  {
    map i | 0 <= i < |KeyNames| :: KeyNames[i] := false
  }

  /** The initial record has an entry for every mapped name. */
  lemma ReleasedNamesAreMapped()
    ensures MappedNames() <= AllReleased().Keys
  {
  }

  /** A record whose entries are exactly the mapped names, all false, is `AllReleased()`. */
  lemma IsAllReleased(keys: map<string, bool>)
    requires keys.Keys == set i | 0 <= i < |KeyCodes| :: KeyMap()[KeyCodes[i]]
    requires forall k :: k in keys ==> !keys[k]
    ensures keys == AllReleased()
  {
  }

  /** The loop `for (key in names) keys[names[key]] = false`, over the keys of a
      code-to-name record visited in the order `codes`. */
  method ReleaseAll(names: map<int, string>, codes: seq<int>) returns (keys: map<string, bool>)
    requires forall i :: 0 <= i < |codes| ==> codes[i] in names
    ensures keys.Keys == set i | 0 <= i < |codes| :: names[codes[i]]
    ensures forall k :: k in keys ==> !keys[k]
  {
    keys := map[];
    var n := 0;
    while n < |codes|
      invariant 0 <= n <= |codes|
      invariant keys.Keys == set i | 0 <= i < n :: names[codes[i]]
      invariant forall k :: k in keys ==> !keys[k]
    {
      keys := keys[names[codes[n]] := false];
      assert (set i | 0 <= i < n + 1 :: names[codes[i]]) == (set i | 0 <= i < n :: names[codes[i]]) + {names[codes[n]]};
      n := n + 1;
    }
  }

  /** `var keys = {}; for (key in keyMap) keys[keyMap[key]] = false;` */
  method InitialKeys() returns (keys: map<string, bool>)
    ensures keys == AllReleased()
  {
    keys := ReleaseAll(KeyMap(), KeyCodes);
    IsAllReleased(keys);
  }

  /** `keys[code] = keys[keyName(code)] = !up` for a keydown (up false) or keyup
      (up true): both entries hold the new state and every other entry is kept. */
  function PressedKeys(keys: map<string, bool>, code: int, up: bool): (r: map<string, bool>)
    ensures r.Keys == keys.Keys + {DecimalString(code), KeyName(code)}
    ensures r[DecimalString(code)] == !up && r[KeyName(code)] == !up
    ensures forall k :: k in keys && k != DecimalString(code) && k != KeyName(code) ==> r[k] == keys[k]
  {
    keys[KeyName(code) := !up][DecimalString(code) := !up]
  }

  /** A keyup undoes a keydown on both entries. */
  lemma ReleaseAfterPress(keys: map<string, bool>, code: int)
    ensures var r := PressedKeys(PressedKeys(keys, code, false), code, true);
            !r[DecimalString(code)] && !r[KeyName(code)]
            && forall k :: k in keys && k != DecimalString(code) && k != KeyName(code) ==> r[k] == keys[k]
  {
  }

  /** The digit keys alias the low codes: the name of code 56 (the key "8") is the
      property name of code 8 (BACKSPACE), so pressing "8" also sets `keys[8]`. */
  lemma DigitKeyAliasesCode()
    ensures KeyName(56) == DecimalString(8)
    ensures PressedKeys(AllReleased(), 56, false)[DecimalString(8)]
  {
    assert 56 !in KeyMap();
  }
}
