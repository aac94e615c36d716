/** Short identifiers: the character filter applied to a base64-encoded GUID
    and the prefix probe that picks the shortest prefix the store does not
    hold. Everything here is a pure function of the random material and of
    the set of keys the store holds while the probe runs. */
module Ids {
  import opened Common

  /** The probe looks at most at this many characters of a candidate. */
  const MAX_ID_LENGTH := 16

  /** The characters matched by the pattern `[/+=]`. */
  predicate IsUnsafe(c: char) {
    c == '/' || c == '+' || c == '='
  }

  /** No character of `s` is one the pattern removes. */
  predicate UrlSafe(s: string) {
    forall i :: 0 <= i < |s| ==> !IsUnsafe(s[i])
  }

  /** Replacing every match of `[/+=]` by the empty string. */
  function StripUnsafe(s: string): (r: string)
    ensures UrlSafe(r)
    ensures |r| <= |s|
  {
    if s == [] then []
    else if IsUnsafe(s[0]) then StripUnsafe(s[1..])
    else [s[0]] + StripUnsafe(s[1..])
  }

  /** The filter removes the unsafe characters and keeps every other
      character with its multiplicity. */
  lemma {:induction false} StripUnsafeCounts(s: string)
    ensures forall c :: multiset(StripUnsafe(s))[c] == if IsUnsafe(c) then 0 else multiset(s)[c]
  {
    if s != [] {
      assert s == [s[0]] + s[1..];
      StripUnsafeCounts(s[1..]);
    }
  }

  /** The filter works character by character, so it distributes over
      concatenation. */
  lemma {:induction false} StripUnsafeConcat(a: string, b: string)
    ensures StripUnsafe(a + b) == StripUnsafe(a) + StripUnsafe(b)
  {
    if a == [] {
      assert a + b == b;
    } else {
      var ab := a + b;
      assert ab[0] == a[0];
      assert ab[1..] == a[1..] + b;
      StripUnsafeConcat(a[1..], b);
      var tail := StripUnsafe(a[1..]);
      if IsUnsafe(a[0]) {
        assert StripUnsafe(ab) == StripUnsafe(a[1..] + b);
        assert StripUnsafe(a) == tail;
      } else {
        assert StripUnsafe(ab) == [a[0]] + (tail + StripUnsafe(b));
        assert StripUnsafe(a) == [a[0]] + tail;
      }
    }
  }

  /** A string without unsafe characters passes the filter unchanged. */
  lemma {:induction false} StripUnsafeOfSafe(s: string)
    requires UrlSafe(s)
    ensures StripUnsafe(s) == s
  {
    if s != [] {
      assert !IsUnsafe(s[0]);
      assert UrlSafe(s[1..]) by {
        forall i | 0 <= i < |s[1..]| ensures !IsUnsafe(s[1..][i]) {
          assert s[1..][i] == s[i + 1];
        }
      }
      StripUnsafeOfSafe(s[1..]);
    }
  }

  /** Filtering twice is filtering once. */
  lemma {:induction false} StripUnsafeIdempotent(s: string)
    ensures StripUnsafe(StripUnsafe(s)) == StripUnsafe(s)
  {
    StripUnsafeOfSafe(StripUnsafe(s));
  }

  /** `id` is what the probe accepts on the stripped candidate `s`: a prefix
      of at most 16 characters that the store does not hold, every shorter
      non-empty prefix of `s` being held. */
  ghost predicate IsShortestFreePrefix(id: string, s: string, keys: set<string>) {
    && 1 <= |id| <= MAX_ID_LENGTH
    && |id| <= |s|
    && id == s[..|id|]
    && id !in keys
    && forall k :: 1 <= k < |id| ==> s[..k] in keys
  }

  /** Every prefix the probe may try on `s` is held by the store. */
  ghost predicate AllPrefixesTaken(s: string, keys: set<string>) {
    && MAX_ID_LENGTH <= |s|
    && forall k :: 1 <= k <= MAX_ID_LENGTH ==> s[..k] in keys
  }

  /** The first `n` non-empty prefixes of `s` are all held by the store. */
  ghost predicate TakenUpTo(s: string, keys: set<string>, n: nat) {
    && n <= |s|
    && forall k :: 1 <= k <= n ==> s[..k] in keys
  }

  /** At most one prefix of a candidate is the shortest free one. */
  lemma ShortestFreePrefixUnique(a: string, b: string, s: string, keys: set<string>)
    requires IsShortestFreePrefix(a, s, keys) && IsShortestFreePrefix(b, s, keys)
    ensures a == b
  {
  }

  /** The probe after the first `n` prefixes of `s` were found taken: the
      next prefix is tried, and the probe stops after 16 characters. */
  function ProbeFrom(s: string, keys: set<string>, n: nat): (r: Option<string>)
    requires n <= MAX_ID_LENGTH <= |s|
    requires TakenUpTo(s, keys, n)
    ensures r.Some? ==> IsShortestFreePrefix(r.value, s, keys) && n < |r.value|
    ensures r.None? <==> AllPrefixesTaken(s, keys)
    decreases MAX_ID_LENGTH - n
  {
    if n == MAX_ID_LENGTH then None
    else if s[..n + 1] !in keys then Some(s[..n + 1])
    else ProbeFrom(s, keys, n + 1)
  }

  /** One pass of the inner `foreach` over `base64Guid[..16]`. */
  function Probe(s: string, keys: set<string>): Option<string>
    requires MAX_ID_LENGTH <= |s|
  {
    ProbeFrom(s, keys, 0)
  }

  /** The outcome of the generator on a sequence of random candidates. */
  datatype Generation = NewId(id: string) | Failed(fault: Fault)

  /** The first `j` candidates were stripped to at least 16 characters and
      had all 16 prefixes taken, so the generator went past them. */
  ghost predicate SkippedBefore(candidates: seq<string>, keys: set<string>, j: int) {
    && 0 <= j <= |candidates|
    && forall i :: 0 <= i < j ==> AllPrefixesTaken(StripUnsafe(candidates[i]), keys)
  }

  /** The generator on a fixed store: strip each candidate in turn, probe
      its prefixes, and move to the next candidate when all 16 are taken.
      A stripped candidate shorter than 16 characters makes the slice
      throw; running out of candidates stands for the retry the source
      never stops. */
  function Generate(candidates: seq<string>, keys: set<string>): (g: Generation)
    ensures g.NewId? ==> 1 <= |g.id| <= MAX_ID_LENGTH && UrlSafe(g.id) && g.id !in keys
    ensures g.Failed? ==> g.fault == CandidateTooShort || g.fault == CandidatesExhausted
    decreases |candidates|
  {
    if candidates == [] then Failed(CandidatesExhausted)
    else
      var stripped := StripUnsafe(candidates[0]);
      if |stripped| < MAX_ID_LENGTH then Failed(CandidateTooShort)
      else match Probe(stripped, keys)
        case Some(id) => NewId(id)
        case None => Generate(candidates[1..], keys)
  }

  /** Skipping candidates whose prefixes are all taken does not change the
      outcome. */
  lemma {:induction false} GenerateSkips(candidates: seq<string>, keys: set<string>, j: int)
    requires SkippedBefore(candidates, keys, j)
    ensures Generate(candidates, keys) == Generate(candidates[j..], keys)
    decreases j
  {
    if j > 0 {
      assert AllPrefixesTaken(StripUnsafe(candidates[0]), keys);
      assert SkippedBefore(candidates[1..], keys, j - 1) by {
        forall i | 0 <= i < j - 1
          ensures AllPrefixesTaken(StripUnsafe(candidates[1..][i]), keys)
        {
          assert candidates[1..][i] == candidates[i + 1];
        }
      }
      GenerateSkips(candidates[1..], keys, j - 1);
      assert candidates[1..][j - 1..] == candidates[j..];
    }
  }

  /** Soundness: a generated id is the shortest free prefix of the first
      candidate that is not fully taken. */
  lemma {:induction false} GenerateSound(candidates: seq<string>, keys: set<string>)
    ensures Generate(candidates, keys).NewId? ==>
      exists j :: SkippedBefore(candidates, keys, j) && j < |candidates| &&
        MAX_ID_LENGTH <= |StripUnsafe(candidates[j])| &&
        IsShortestFreePrefix(Generate(candidates, keys).id, StripUnsafe(candidates[j]), keys)
    decreases |candidates|
  {
    var g := Generate(candidates, keys);
    if g.NewId? {
      var stripped := StripUnsafe(candidates[0]);
      if Probe(stripped, keys).Some? {
        assert SkippedBefore(candidates, keys, 0);
      } else {
        var rest := candidates[1..];
        GenerateSound(rest, keys);
        var j :| SkippedBefore(rest, keys, j) && j < |rest| &&
          MAX_ID_LENGTH <= |StripUnsafe(rest[j])| &&
          IsShortestFreePrefix(g.id, StripUnsafe(rest[j]), keys);
        assert rest[j] == candidates[j + 1];
        assert SkippedBefore(candidates, keys, j + 1) by {
          forall i | 0 <= i < j + 1
            ensures AllPrefixesTaken(StripUnsafe(candidates[i]), keys)
          {
            if i > 0 { assert candidates[i] == rest[i - 1]; }
          }
        }
      }
    }
  }

  /** Completeness: when candidate `j` is the first one not fully taken and
      its stripped form is long enough, the generator returns exactly its
      shortest free prefix. */
  lemma GenerateComplete(candidates: seq<string>, keys: set<string>, j: int, id: string)
    requires SkippedBefore(candidates, keys, j) && j < |candidates|
    requires MAX_ID_LENGTH <= |StripUnsafe(candidates[j])|
    requires IsShortestFreePrefix(id, StripUnsafe(candidates[j]), keys)
    ensures Generate(candidates, keys) == NewId(id)
  {
    GenerateSkips(candidates, keys, j);
    var s := StripUnsafe(candidates[j]);
    assert candidates[j..][0] == candidates[j];
    var p := Probe(s, keys);
    assert p.Some? by {
      assert s[..|id|] !in keys;
    }
    ShortestFreePrefixUnique(p.value, id, s, keys);
  }

  /** The slice `base64Guid[..16]` throws exactly when the first candidate
      that is not fully taken strips to fewer than 16 characters. */
  lemma {:induction false} GenerateTooShort(candidates: seq<string>, keys: set<string>)
    ensures Generate(candidates, keys) == Failed(CandidateTooShort) <==>
      exists j :: SkippedBefore(candidates, keys, j) && j < |candidates| &&
        |StripUnsafe(candidates[j])| < MAX_ID_LENGTH
    decreases |candidates|
  {
    if Generate(candidates, keys) == Failed(CandidateTooShort) {
      var stripped := StripUnsafe(candidates[0]);
      if |stripped| < MAX_ID_LENGTH {
        assert SkippedBefore(candidates, keys, 0);
      } else {
        var rest := candidates[1..];
        assert Probe(stripped, keys).None?;
        GenerateTooShort(rest, keys);
        var j :| SkippedBefore(rest, keys, j) && j < |rest| &&
          |StripUnsafe(rest[j])| < MAX_ID_LENGTH;
        assert rest[j] == candidates[j + 1];
        assert SkippedBefore(candidates, keys, j + 1) by {
          forall i | 0 <= i < j + 1
            ensures AllPrefixesTaken(StripUnsafe(candidates[i]), keys)
          {
            if i > 0 { assert candidates[i] == rest[i - 1]; }
          }
        }
      }
    }
    forall j | SkippedBefore(candidates, keys, j) && j < |candidates| &&
        |StripUnsafe(candidates[j])| < MAX_ID_LENGTH
      ensures Generate(candidates, keys) == Failed(CandidateTooShort)
    {
      GenerateSkips(candidates, keys, j);
      assert candidates[j..][0] == candidates[j];
    }
  }

  /** The generator only runs out when every candidate was fully taken. */
  lemma {:induction false} GenerateExhausted(candidates: seq<string>, keys: set<string>)
    ensures Generate(candidates, keys) == Failed(CandidatesExhausted) <==>
      SkippedBefore(candidates, keys, |candidates|)
    decreases |candidates|
  {
    if candidates != [] {
      var rest := candidates[1..];
      GenerateExhausted(rest, keys);
      if SkippedBefore(candidates, keys, |candidates|) {
        GenerateSkips(candidates, keys, 1);
        assert candidates[1..] == rest;
        assert SkippedBefore(rest, keys, |rest|) by {
          forall i | 0 <= i < |rest| ensures AllPrefixesTaken(StripUnsafe(rest[i]), keys) {
            assert rest[i] == candidates[i + 1];
          }
        }
      }
    }
  }
}
