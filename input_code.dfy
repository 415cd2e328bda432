/**
 * The buffer behind the one-time-code input (components/ui/InputCode.tsx):
 * `length` slots of at most one character each, filled from the `value`
 * property, by typing into one slot, or by pasting. Every update replaces the
 * buffer with a new array, as `setCode` does, and reports the slots joined
 * together to `onChange`. Focus handling and rendering are not part of this
 * model.
 */
module InputCodeBuffer {

  /** `value.split('').slice(0, length)` padded with '' to `length` slots. */
  function Padded(value: string, length: nat): (r: seq<string>)
    ensures |r| == length
    ensures forall i :: 0 <= i < length && i < |value| ==> r[i] == [value[i]]
    ensures forall i :: |value| <= i < length ==> r[i] == ""
  {
    seq(length, i requires 0 <= i < length => if i < |value| then [value[i]] else "")
  }

  /** `slots.join('')` */
  function Concat(slots: seq<string>): (s: string)
    ensures slots == [] ==> s == ""
  {
    if slots == [] then "" else slots[0] + Concat(slots[1..])
  }

  function Min(a: nat, b: nat): nat
  {
    if a < b then a else b
  }

  /** Joining a padded buffer gives back the part of the value that fits. */
  lemma {:induction false} ConcatPadded(value: string, length: nat)
    ensures Concat(Padded(value, length)) == value[..Min(|value|, length)]
    decreases length
  {
    if length > 0 {
      var p := Padded(value, length);
      var rest := if value == [] then value else value[1..];
      assert p[1..] == Padded(rest, length - 1);
      ConcatPadded(rest, length - 1);
      assert Concat(p) == p[0] + Concat(p[1..]);
      if value != [] {
        assert value[..Min(|value|, length)] == [value[0]] + rest[..Min(|rest|, length - 1)];
      }
    }
  }

  class InputCode {
    const length: nat
    var code: array<string>

    predicate Valid()
      reads this
    {
      code.Length == length
    }

    /** `useState(Array(length).fill(''))` */
    constructor (length: nat)
      ensures this.length == length && Valid() && fresh(code)
      ensures code[..] == Padded("", length)
    {
      this.length := length;
      code := new string[length](_ => "");
    }

    /** The `value` effect: a non-empty value replaces the buffer with its padded characters. */
    method SyncValue(value: string)
      requires Valid()
      modifies this
      ensures Valid()
      ensures value == "" ==> code == old(code)
      ensures value != "" ==> fresh(code) && code[..] == Padded(value, length)
    {
      if value != "" {
        var padded := Padded(value, length);
        code := new string[length](i requires 0 <= i < length => padded[i]);
      }
    }

    /**
     * `handleChange`: input longer than one character is ignored; otherwise
     * slot `index` alone takes the input and the joined slots are reported.
     */
    method HandleChange(index: nat, newValue: string) returns (reported: Report)
      requires Valid() && index < length
      modifies this
      ensures Valid()
      ensures |newValue| > 1 ==> code == old(code) && reported == Silent
      ensures |newValue| <= 1 ==>
        fresh(code) && code[..] == old(code[..])[index := newValue] && reported == Reported(Concat(code[..]))
    {
      if |newValue| > 1 {
        return Silent;
      }
      var copy := code[..];
      var newCode := new string[length](i requires 0 <= i < length => copy[i]);
      newCode[index] := newValue;
      code := newCode;
      reported := Reported(Concat(code[..]));
    }

    /**
     * `handlePaste`: a fresh buffer of empty slots takes the pasted text's
     * characters, at most `length` of them, one per slot from the first.
     */
    method HandlePaste(text: string) returns (reported: string)
      requires Valid()
      modifies this
      ensures Valid() && fresh(code)
      ensures code[..] == Padded(text, length)
      ensures reported == Concat(code[..]) == text[..Min(|text|, length)]
    {
      var pasted := text[..Min(|text|, length)];
      var newCode := new string[length](_ => "");
      for i := 0 to |pasted|
        invariant forall j :: 0 <= j < i ==> newCode[j] == [pasted[j]]
        invariant forall j :: i <= j < length ==> newCode[j] == ""
      {
        if i < length {
          newCode[i] := [pasted[i]];
        }
      }
      code := newCode;
      ConcatPadded(text, length);
      reported := Concat(code[..]);
    }
  }

  /** What `onChange` receives: nothing, or the joined slots. */
  datatype Report = Silent | Reported(code: string)
}
