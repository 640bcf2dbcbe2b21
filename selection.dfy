/** Arm selection: numpy's first-maximum argmax and Python's max over the instance. */
module Selection {

  /** The index that np.argmax returns: a maximum, and the first one among ties. */
  function Argmax(s: seq<real>): (k: nat)
    requires |s| > 0
    ensures k < |s|
    ensures forall j :: 0 <= j < |s| ==> s[j] <= s[k]
    ensures forall j :: 0 <= j < k ==> s[j] < s[k]
  {
    if |s| == 1 then 0
    else
      var k := Argmax(s[..|s| - 1]);
      if s[k] < s[|s| - 1] then |s| - 1 else k
  }

  /** The properties of Argmax leave no choice: an index that has them is the one Argmax returns. */
  lemma FirstMaxUnique(s: seq<real>, k: int)
    requires 0 <= k < |s|
    requires forall j :: 0 <= j < |s| ==> s[j] <= s[k]
    requires forall j :: 0 <= j < k ==> s[j] < s[k]
    ensures k == Argmax(s)
  {
    var a := Argmax(s);
    assert s[a] == s[k];
  }

  /** Python's max over a non-empty sequence of probabilities. */
  function MaxOf(s: seq<real>): (m: real)
    requires |s| > 0
    ensures m in s
    ensures forall j :: 0 <= j < |s| ==> s[j] <= m
  {
    if |s| == 1 then s[0]
    else
      var m := MaxOf(s[..|s| - 1]);
      assert m in s[..|s| - 1];
      if m < s[|s| - 1] then s[|s| - 1] else m
  }
}
