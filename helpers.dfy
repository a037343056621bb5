/** The two pure helpers of utils/helpers.py that commands rely on. */
module Helpers {

  /**
   * The length of Python's `text[:k]` for a text of length n: a non-negative k
   * is capped at n, a negative k counts from the end and bottoms out at 0.
   */
  function SliceEnd(n: nat, k: int): (e: nat)
    ensures e <= n
    ensures k >= 0 ==> e == (if k < n then k else n)
    ensures k < 0 ==> e == (if n + k > 0 then n + k else 0)
  {
    if k >= 0 then (if k < n then k else n)
    else if n + k > 0 then n + k else 0
  }

  /**
   * truncate_text: a text no longer than maxLength is returned as it is; a longer
   * one is cut to its first maxLength - 3 characters (Python slicing) and "..."
   * is appended, so the result has exactly maxLength characters when maxLength >= 3.
   */
  function TruncateText(text: string, maxLength: int := 1024): (r: string)
    ensures |text| <= maxLength ==> r == text
    ensures |text| > maxLength ==>
      && |r| >= 3
      && r[|r| - 3..] == "..."
      && |r| - 3 <= |text|
      && r[..|r| - 3] == text[..|r| - 3]
    ensures |text| > maxLength && maxLength >= 3 ==> |r| == maxLength
    ensures |text| > maxLength && maxLength < 3 ==>
      |r| == 3 + (if |text| + maxLength - 3 > 0 then |text| + maxLength - 3 else 0)
  {
    if |text| <= maxLength then text
    else text[..SliceEnd(|text|, maxLength - 3)] + "..."
  }

  /** has_permissions: requested names as keyword arguments; the values passed are not looked at. */
  function HasPermissions(memberPerms: map<string, bool>, requested: seq<(string, bool)>): (r: bool)
    ensures r <==> forall i :: 0 <= i < |requested| ==>
      requested[i].0 in memberPerms && memberPerms[requested[i].0]
  {
    if |requested| == 0 then true
    else
      var name := requested[0].0;
      (name in memberPerms && memberPerms[name]) && HasPermissions(memberPerms, requested[1..])
  }

  /** Only the names matter: asking for perm=False still demands perm. */
  lemma HasPermissionsIgnoresValues(memberPerms: map<string, bool>, a: seq<(string, bool)>, b: seq<(string, bool)>)
    requires |a| == |b|
    requires forall i :: 0 <= i < |a| ==> a[i].0 == b[i].0
    ensures HasPermissions(memberPerms, a) == HasPermissions(memberPerms, b)
  {
  }

  /** An empty request always passes, and an unknown name always fails. */
  lemma HasPermissionsEdgeCases(memberPerms: map<string, bool>, name: string, value: bool)
    ensures HasPermissions(memberPerms, [])
    ensures name !in memberPerms ==> !HasPermissions(memberPerms, [(name, value)])
  {
  }
}
