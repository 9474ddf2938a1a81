/** Input validation (backend/internal/utils/validation.go): the container-ID
    gate that guards every handler touching the runtime by ID, and the
    control-character filter for user-supplied strings. */
module Validation {
  import Primitives

  /** One character of the class `[a-zA-Z0-9_-]`. */
  predicate IsIdChar(c: char)
  {
    ('a' <= c <= 'z') || ('A' <= c <= 'Z') || ('0' <= c <= '9') || c == '_' || c == '-'
  }

  /** Scans the candidate left to right, as the anchored pattern does. */
  function AllIdChars(s: string): (r: bool)
    ensures r <==> forall i :: 0 <= i < |s| ==> IsIdChar(s[i])
  {
    if |s| == 0 then true else IsIdChar(s[0]) && AllIdChars(s[1..])
  }

  /** `ValidateContainerID`: non-empty and matching `^[a-zA-Z0-9_-]{12,64}$`. */
  function ValidateContainerID(id: string): (ok: bool)
    ensures ok <==> 12 <= |id| <= 64 && forall i :: 0 <= i < |id| ==> IsIdChar(id[i])
  {
    if id == "" then false
    else 12 <= |id| <= 64 && AllIdChars(id)
  }

  /** An accepted ID contains no path separator, no dot and no white space,
      so it cannot spell a relative path or break out of a URL segment. */
  lemma AcceptedIdIsInert(id: string)
    requires ValidateContainerID(id)
    ensures id != ""
    ensures '/' !in id && '.' !in id && '\\' !in id
    ensures forall i :: 0 <= i < |id| ==> !Primitives.IsSpace(id[i])
  {
    forall c | c in id ensures IsIdChar(c) {
      var i :| 0 <= i < |id| && id[i] == c;
    }
  }

  /** The characters `SanitizeString` deletes: U+0000 to U+001F and U+007F. */
  predicate IsControl(c: char)
  {
    c <= '\U{001F}' || c == '\U{007F}'
  }

  /** `SanitizeString`: removes every control character, keeping the rest in order. */
  function SanitizeString(s: string): (r: string)
    ensures |r| <= |s|
    ensures forall i :: 0 <= i < |r| ==> !IsControl(r[i])
  {
    if |s| == 0 then ""
    else if IsControl(s[0]) then SanitizeString(s[1..])
    else [s[0]] + SanitizeString(s[1..])
  }

  /** Sanitizing works character by character, so it distributes over concatenation. */
  lemma {:induction false} SanitizeConcat(a: string, b: string)
    ensures SanitizeString(a + b) == SanitizeString(a) + SanitizeString(b)
  {
    if |a| == 0 {
      assert a + b == b;
    } else {
      assert (a + b)[0] == a[0] && (a + b)[1..] == a[1..] + b;
      SanitizeConcat(a[1..], b);
    }
  }

  /** A string without control characters is returned unchanged. */
  lemma {:induction false} SanitizeClean(s: string)
    requires forall i :: 0 <= i < |s| ==> !IsControl(s[i])
    ensures SanitizeString(s) == s
  {
    if |s| > 0 {
      SanitizeClean(s[1..]);
    }
  }

  lemma SanitizeIdempotent(s: string)
    ensures SanitizeString(SanitizeString(s)) == SanitizeString(s)
  {
    SanitizeClean(SanitizeString(s));
  }

  /** Every non-control character survives as often as it occurs, and no
      control character survives. */
  lemma {:induction false} SanitizeKeepsOthers(s: string)
    ensures forall c :: !IsControl(c) ==> multiset(SanitizeString(s))[c] == multiset(s)[c]
    ensures forall c :: IsControl(c) ==> multiset(SanitizeString(s))[c] == 0
  {
    if |s| > 0 {
      SanitizeKeepsOthers(s[1..]);
      assert s == [s[0]] + s[1..];
      assert multiset(s) == multiset([s[0]]) + multiset(s[1..]);
    }
  }

  /** The positions, from `i` on, of the characters `SanitizeString` keeps,
      in increasing order: exactly the non-control positions. */
  function KeptFrom(s: string, i: nat): (idx: seq<nat>)
    requires i <= |s|
    ensures forall k :: 0 <= k < |idx| ==> i <= idx[k] < |s| && !IsControl(s[idx[k]])
    ensures forall k, l :: 0 <= k < l < |idx| ==> idx[k] < idx[l]
    ensures forall j :: i <= j < |s| && !IsControl(s[j]) ==> j in idx
    decreases |s| - i
  {
    if i == |s| then []
    else if IsControl(s[i]) then KeptFrom(s, i + 1)
    else [i] + KeptFrom(s, i + 1)
  }

  /** The output of sanitizing `s[i..]`, read along the kept positions. */
  lemma {:induction false} SanitizeAlongKept(s: string, i: nat)
    requires i <= |s|
    ensures |SanitizeString(s[i..])| == |KeptFrom(s, i)|
    ensures forall k :: 0 <= k < |KeptFrom(s, i)| ==> SanitizeString(s[i..])[k] == s[KeptFrom(s, i)[k]]
    decreases |s| - i
  {
    if i < |s| {
      SanitizeAlongKept(s, i + 1);
      assert s[i..][0] == s[i] && s[i..][1..] == s[i + 1..];
      var r, rest := SanitizeString(s[i..]), SanitizeString(s[i + 1..]);
      var idx, idxRest := KeptFrom(s, i), KeptFrom(s, i + 1);
      if !IsControl(s[i]) {
        assert r == [s[i]] + rest && idx == [i] + idxRest;
        ConsAlong(s, i, rest, idxRest);
      }
    }
  }

  /** Putting a kept character in front of the output and its position in
      front of the positions keeps the two aligned. */
  lemma ConsAlong(s: string, i: nat, rest: string, idxRest: seq<nat>)
    requires i < |s| && |rest| == |idxRest|
    requires forall k :: 0 <= k < |idxRest| ==> idxRest[k] < |s| && rest[k] == s[idxRest[k]]
    ensures forall k :: 0 <= k < |idxRest| + 1 ==>
              ([i] + idxRest)[k] < |s| && ([s[i]] + rest)[k] == s[([i] + idxRest)[k]]
  {
  }

  /** The output is the input with its control characters deleted and the
      others kept in their original order: the k-th output character is the
      character at the k-th non-control position of the input. */
  lemma SanitizeKeepsOrder(s: string)
    ensures var r, idx := SanitizeString(s), KeptFrom(s, 0);
            && |r| == |idx|
            && (forall k :: 0 <= k < |idx| ==> r[k] == s[idx[k]])
            && (forall k, l :: 0 <= k < l < |idx| ==> idx[k] < idx[l])
            && (forall j :: 0 <= j < |s| ==> (j in idx <==> !IsControl(s[j])))
  {
    SanitizeAlongKept(s, 0);
    assert s[0..] == s;
  }
}
