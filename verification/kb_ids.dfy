/**
 * Knowledge-article ids minted by the learning loop: `KB-SYN-` followed by a
 * sequence number written with at least four digits, and the next free
 * sequence number given the ids already in use (backend/app/main.py).
 */
module KbIds {
  import opened Wrappers
  import opened Text

  const KbIdPrefix := "KB-SYN-"

  /** `f"{KB_ID_PREFIX}-{n:04d}"`. */
  function FormatKbId(n: nat): (id: string)
    ensures |id| >= |KbIdPrefix| + 4 && id[..|KbIdPrefix|] == KbIdPrefix
  {
    KbIdPrefix + PadNat(n, 4)
  }

  /**
   * The sequence number `^KB-SYN-(\d+)$` reads from an id, if it matches.
   * Python's `$` also matches just before a final newline.
   */
  function ParseKbSeq(id: string): (r: Option<nat>)
    ensures r.Some? ==> |id| > |KbIdPrefix| && id[..|KbIdPrefix|] == KbIdPrefix
  {
    if |id| <= |KbIdPrefix| || id[..|KbIdPrefix|] != KbIdPrefix then None
    else
      var rest := id[|KbIdPrefix|..];
      var digits := if rest[|rest| - 1] == '\n' then rest[..|rest| - 1] else rest;
      if digits != [] && AllDigits(digits) then Some(DigitsValue(digits)) else None
  }

  /** A minted id parses back to its sequence number. */
  lemma FormatParseRoundTrip(n: nat)
    ensures ParseKbSeq(FormatKbId(n)) == Some(n)
  {
    var id := FormatKbId(n);
    var digits := PadNat(n, 4);
    assert id[..|KbIdPrefix|] == KbIdPrefix;
    assert id[|KbIdPrefix|..] == digits;
    assert IsDigit(digits[|digits| - 1]);
  }

  /** Different sequence numbers give different ids. */
  lemma FormatInjective(m: nat, n: nat)
    requires FormatKbId(m) == FormatKbId(n)
    ensures m == n
  {
    FormatParseRoundTrip(m);
    FormatParseRoundTrip(n);
  }

  /** The largest sequence number among the ids that match, 0 when none does. */
  function MaxSeq(ids: seq<string>): (m: nat)
    ensures forall i :: 0 <= i < |ids| && ParseKbSeq(ids[i]).Some? ==> ParseKbSeq(ids[i]).value <= m
    ensures m == 0 || exists i :: 0 <= i < |ids| && ParseKbSeq(ids[i]) == Some(m)
  {
    if ids == [] then 0
    else
      var m := MaxSeq(ids[1..]);
      assert forall i :: 1 <= i < |ids| ==> ids[i] == ids[1..][i - 1];
      match ParseKbSeq(ids[0])
      case Some(n) => if n > m then n else m
      case None => m
  }

  /** `_next_kb_sequence`: one past the largest sequence number in use. */
  function NextKbSequence(ids: seq<string>): (n: nat)
    ensures n >= 1
    ensures forall i :: 0 <= i < |ids| && ParseKbSeq(ids[i]).Some? ==> ParseKbSeq(ids[i]).value < n
    ensures n == 1 || exists i :: 0 <= i < |ids| && ParseKbSeq(ids[i]) == Some(n - 1)
  {
    MaxSeq(ids) + 1
  }

  /** An id minted at or past the next sequence number is not among the ids in use. */
  lemma MintedIsFresh(ids: seq<string>, n: nat)
    requires n >= NextKbSequence(ids)
    ensures FormatKbId(n) !in ids
  {
    FormatParseRoundTrip(n);
  }

  /** Adding the id minted from the next sequence number moves the next one on by exactly one. */
  lemma {:induction false} NextAfterMint(ids: seq<string>)
    ensures NextKbSequence(ids + [FormatKbId(NextKbSequence(ids))]) == NextKbSequence(ids) + 1
  {
    var n := NextKbSequence(ids);
    FormatParseRoundTrip(n);
    LastMatchRaises(ids, FormatKbId(n), n);
  }

  /** Appending an id that matches with number `n` raises the maximum to at least `n`, and to no more. */
  lemma {:induction false} LastMatchRaises(ids: seq<string>, id: string, n: nat)
    requires ParseKbSeq(id) == Some(n)
    ensures MaxSeq(ids + [id]) == if n > MaxSeq(ids) then n else MaxSeq(ids)
  {
    if ids != [] {
      assert (ids + [id])[1..] == ids[1..] + [id];
      LastMatchRaises(ids[1..], id, n);
    }
  }
}
