// Small value types and string helpers shared by every model module.
module Basics {
  /** An optional value: std::optional, a nullable pointer or Python's None. */
  datatype Option<T> = None | Some(value: T)

  /** A value or an error: a C++ variant/error code, or a Python exception. */
  datatype Result<T, E> = Ok(value: T) | Err(error: E)

  /** `n` copies of `c`. */
  function Repeat(c: char, n: nat): (r: string)
    ensures |r| == n
    ensures forall i :: 0 <= i < n ==> r[i] == c
  {
    if n == 0 then "" else [c] + Repeat(c, n - 1)
  }

  /** The parts separated by `sep` (absl::StrJoin, Python's str.join). */
  function Join(parts: seq<string>, sep: string): string
  {
    if |parts| == 0 then ""
    else if |parts| == 1 then parts[0]
    else parts[0] + sep + Join(parts[1..], sep)
  }

  lemma {:induction false} JoinSnoc(parts: seq<string>, x: string, sep: string)
    requires |parts| > 0
    ensures Join(parts + [x], sep) == Join(parts, sep) + sep + x
  {
    if |parts| == 1 {
      assert parts + [x] == [parts[0], x];
      assert (parts + [x])[1..] == [x];
    } else {
      assert (parts + [x])[1..] == parts[1..] + [x];
      JoinSnoc(parts[1..], x, sep);
    }
  }

  /** The parts one after another (repeated absl::StrAppend onto one builder). */
  function Concat(parts: seq<string>): string
  {
    if parts == [] then "" else parts[0] + Concat(parts[1..])
  }

  /** Every occurrence of `from` replaced by `to`. */
  function ReplaceChar(s: string, from: char, to: char): (r: string)
    ensures |r| == |s|
    ensures forall i :: 0 <= i < |s| ==> r[i] == (if s[i] == from then to else s[i])
  {
    if s == [] then [] else [if s[0] == from then to else s[0]] + ReplaceChar(s[1..], from, to)
  }

  /** `pat` occurs in `s` starting at position `k`. */
  predicate MatchAt(s: string, pat: string, k: int)
  {
    0 <= k && k + |pat| <= |s| && s[k..k + |pat|] == pat
  }

  /** The first position at or after `from` where `pat` occurs (str.index, std::string::find). */
  function IndexOf(s: string, pat: string, from: nat): (r: Option<nat>)
    ensures r.Some? ==> from <= r.value && MatchAt(s, pat, r.value)
    ensures r.Some? ==> forall k :: from <= k < r.value ==> !MatchAt(s, pat, k)
    ensures r.None? ==> forall k :: from <= k ==> !MatchAt(s, pat, k)
    decreases |s| - from
  {
    if from + |pat| > |s| then None
    else if s[from..from + |pat|] == pat then Some(from)
    else IndexOf(s, pat, from + 1)
  }

  /** IndexOf finds the first match at or after `from`. */
  lemma IndexOfFirst(s: string, pat: string, from: nat, k: nat)
    requires from <= k && MatchAt(s, pat, k)
    requires forall j :: from <= j < k ==> !MatchAt(s, pat, j)
    ensures IndexOf(s, pat, from) == Some(k)
  {
  }

  /** IndexOf finds nothing when no match starts at or after `from`. */
  lemma IndexOfNone(s: string, pat: string, from: nat)
    requires forall j :: from <= j <= |s| ==> !MatchAt(s, pat, j)
    ensures IndexOf(s, pat, from) == None
  {
  }

  /** Matching in a suffix is matching in the whole text, shifted. */
  lemma MatchShift(s: string, i: nat, pat: string)
    requires i <= |s|
    ensures forall k :: 0 <= k ==> (MatchAt(s[i..], pat, k) <==> MatchAt(s, pat, i + k))
  {
    forall k | 0 <= k ensures MatchAt(s[i..], pat, k) <==> MatchAt(s, pat, i + k) {
      if k + |pat| <= |s| - i {
        assert s[i..][k..k + |pat|] == s[i + k..i + k + |pat|];
      }
    }
  }

  /** `s` contains `pat` somewhere. */
  predicate Contains(s: string, pat: string)
  {
    exists k :: 0 <= k <= |s| && MatchAt(s, pat, k)
  }

  /** Concatenation regroups freely. */
  lemma AppendAssoc<T>(a: seq<T>, b: seq<T>, c: seq<T>)
    ensures (a + b) + c == a + (b + c)
  {
  }

  /** No character of `s` is `c`. */
  predicate Avoids(s: string, c: char)
  {
    forall i :: 0 <= i < |s| ==> s[i] != c
  }

  /** `s` cut at every occurrence of `sep`, left to right (absl::StrSplit, Python's str.split). */
  function Split(s: string, sep: string): (r: seq<string>)
    requires |sep| > 0
    ensures |r| > 0
    decreases |s|
  {
    match IndexOf(s, sep, 0)
    case None => [s]
    case Some(k) => [s[..k]] + Split(s[k + |sep|..], sep)
  }

  /** A text without the separator's first character holds no separator. */
  lemma SplitNone(s: string, sep: string)
    requires |sep| > 0 && Avoids(s, sep[0])
    ensures Split(s, sep) == [s]
  {
    IndexOfNone(s, sep, 0);
  }

  /** Splitting a join gives back the parts, when no part holds the separator's first character. */
  lemma {:induction false} SplitJoin(parts: seq<string>, sep: string)
    requires |sep| > 0 && |parts| > 0
    requires forall i :: 0 <= i < |parts| ==> Avoids(parts[i], sep[0])
    ensures Split(Join(parts, sep), sep) == parts
  {
    if |parts| == 1 {
      SplitNone(parts[0], sep);
    } else {
      var head := parts[0];
      var rest := Join(parts[1..], sep);
      var s := head + sep + rest;
      assert s[|head|..|head| + |sep|] == sep;
      IndexOfFirst(s, sep, 0, |head|);
      assert s[|head| + |sep|..] == rest;
      assert s[..|head|] == head;
      SplitJoin(parts[1..], sep);
    }
  }

  // ---- hash-map emplace ----

  /** flat_hash_map::emplace: binds `k` to `v` unless `k` is bound already, in which case nothing changes. */
  function Emplace<K, V>(m: map<K, V>, k: K, v: V): map<K, V>
  {
    if k in m then m else m[k := v]
  }

  /** A run of emplaces, one entry after the other. */
  function EmplaceAll<K, V>(m: map<K, V>, entries: seq<(K, V)>): map<K, V>
    decreases |entries|
  {
    if |entries| == 0 then m else EmplaceAll(Emplace(m, entries[0].0, entries[0].1), entries[1..])
  }

  /** `i` is the first entry with key `k`. */
  predicate FirstEntry<K(==), V>(entries: seq<(K, V)>, k: K, i: int)
  {
    0 <= i < |entries| && entries[i].0 == k && forall j :: 0 <= j < i ==> entries[j].0 != k
  }

  /**
   * After a run of emplaces a key is bound iff it was bound before or some
   * entry has it; a key bound before keeps its value, and any other key
   * holds the value of its first entry.
   */
  lemma {:induction false} EmplaceAllKeepsFirst<K, V>(m: map<K, V>, entries: seq<(K, V)>, k: K)
    ensures k in EmplaceAll(m, entries) <==> k in m || exists i :: 0 <= i < |entries| && entries[i].0 == k
    ensures k in m ==> EmplaceAll(m, entries)[k] == m[k]
    ensures forall i :: k !in m && FirstEntry(entries, k, i) ==> EmplaceAll(m, entries)[k] == entries[i].1
    decreases |entries|
  {
    if |entries| > 0 {
      var m' := Emplace(m, entries[0].0, entries[0].1);
      var rest := entries[1..];
      EmplaceAllKeepsFirst(m', rest, k);
      if k !in m && k != entries[0].0 {
        forall i | FirstEntry(entries, k, i) ensures EmplaceAll(m, entries)[k] == entries[i].1 {
          assert FirstEntry(rest, k, i - 1);
        }
        if exists i :: 0 <= i < |entries| && entries[i].0 == k {
          var i :| 0 <= i < |entries| && entries[i].0 == k;
          assert rest[i - 1].0 == k;
        }
      }
    }
  }
}
