/** Editing of the caret text by the key handler: Backspace drops the last
    character, a one-character key is appended, every other key is ignored. */
module TextEdit {

  /** The key name the browser reports for the backspace key. */
  const Backspace: string := "Backspace"

  /** How ECMAScript's String.prototype.slice turns an index argument into a
      position: a negative index counts back from the end, and the result is
      clamped to the string. */
  function ResolveIndex(i: int, len: nat): (k: nat)
    ensures k <= len
    ensures 0 <= i <= len ==> k == i
    ensures i < 0 && 0 <= len + i ==> k == len + i
    ensures len + i < 0 ==> k == 0
    ensures len < i ==> k == len
  {
    if i < 0 then (if len + i < 0 then 0 else len + i)
    else if i > len then len
    else i
  }

  /** ECMAScript's String.prototype.slice(begin, end): the characters from the
      resolved begin up to the resolved end, or the empty string when those
      cross. */
  function Slice(s: string, begin: int, end: int): (r: string)
    ensures |r| <= |s|
    ensures 0 <= begin <= end <= |s| ==> r == s[begin..end]
    ensures begin == 0 && end < 0 && 0 <= |s| + end ==> r == s[..|s| + end]
    ensures begin == 0 && |s| + end < 0 ==> r == ""
    ensures ResolveIndex(end, |s|) <= ResolveIndex(begin, |s|) ==> r == ""
    ensures ResolveIndex(begin, |s|) < ResolveIndex(end, |s|) ==>
              r == s[ResolveIndex(begin, |s|)..ResolveIndex(end, |s|)]
  {
    var from := ResolveIndex(begin, |s|);
    var to := ResolveIndex(end, |s|);
    if from < to then s[from..to] else ""
  }

  /** The text after one key press. */
  function ApplyKey(text: string, key: string): (t: string)
    ensures key == Backspace && |text| > 0 ==> t + [text[|text| - 1]] == text
    ensures key == Backspace && |text| == 0 ==> t == ""
    ensures key != Backspace && |key| == 1 ==> t == text + key
    ensures key != Backspace && |key| != 1 ==> t == text
  {
    if key == Backspace then Slice(text, 0, -1)
    else if |key| == 1 then text + key
    else text
  }

  /** The text after a sequence of key presses, in order. */
  function TypeKeys(text: string, keys: seq<string>): string
    decreases |keys|
  {
    if |keys| == 0 then text else TypeKeys(ApplyKey(text, keys[0]), keys[1..])
  }

  /** Every key is a one-character key. */
  predicate AllPrintable(keys: seq<string>)
  {
    forall i :: 0 <= i < |keys| ==> |keys[i]| == 1
  }

  /** The concatenation of the keys, in order. */
  function Concat(keys: seq<string>): string
    decreases |keys|
  {
    if |keys| == 0 then "" else keys[0] + Concat(keys[1..])
  }

  /** Backspace undoes the key just typed; it can never delete more, so
      Backspace on the empty text leaves it empty. */
  lemma BackspaceUndoesKey(text: string, key: string)
    requires |key| == 1
    ensures ApplyKey(ApplyKey(text, key), Backspace) == text
    ensures ApplyKey("", Backspace) == ""
  {
    assert key != Backspace by { assert |Backspace| == 9; }
    var typed := ApplyKey(text, key);
    assert typed[..|typed| - 1] == text;
  }

  /** Typing only one-character keys appends them in order. */
  lemma {:induction false} TypePrintable(text: string, keys: seq<string>)
    requires AllPrintable(keys)
    ensures TypeKeys(text, keys) == text + Concat(keys)
    decreases |keys|
  {
    if |keys| > 0 {
      assert |keys[0]| == 1;
      assert keys[0] != Backspace by { assert |Backspace| == 9; }
      assert AllPrintable(keys[1..]) by {
        forall i | 0 <= i < |keys[1..]| ensures |keys[1..][i]| == 1 {
          assert keys[1..][i] == keys[i + 1];
        }
      }
      TypePrintable(text + keys[0], keys[1..]);
      assert text + keys[0] + Concat(keys[1..]) == text + (keys[0] + Concat(keys[1..]));
    }
  }

  /** Typing A, B, Backspace, C into the empty text yields "AC". */
  lemma TypingExample()
    ensures TypeKeys("", ["A", "B", Backspace, "C"]) == "AC"
  {
    var keys := ["A", "B", Backspace, "C"];
    assert ApplyKey("", "A") == "A";
    assert ApplyKey("A", "B") == "AB";
    assert ApplyKey("AB", Backspace) == "A";
    assert ApplyKey("A", "C") == "AC";
    assert keys[1..] == ["B", Backspace, "C"];
    assert keys[1..][1..] == [Backspace, "C"];
    assert keys[1..][1..][1..] == ["C"];
    assert TypeKeys("AC", []) == "AC";
    assert TypeKeys("A", ["C"]) == "AC";
    assert TypeKeys("AB", [Backspace, "C"]) == "AC";
    assert TypeKeys("A", ["B", Backspace, "C"]) == "AC";
  }
}
