/**
 Committing a datatype (opal_datatype_commit): its description is closed and an optimized one is made, which
 copying and packing then use.
 */
module Commit {
  import opened Description
  import opened Soundness
  import opened Build
  import opened Optimize
  import opened Engine

  lemma {:induction false} BuiltPositive(s: seq<Entry>)
    requires Built(s)
    ensures forall i :: 0 <= i < |s| && s[i].Loop? ==> s[i].loops >= 1
    decreases |s|
  {
    if s != [] {
      var k := HeadLen(s);
      if s[0].Loop? { BuiltPositive(s[1..s[0].items]); }
      BuiltPositive(s[k..]);
      forall i | 0 <= i < |s| && s[i].Loop? ensures s[i].loops >= 1 {
        if i >= k {
          assert s[i] == s[k..][i - k];
        } else if 0 < i < k - 1 {
          assert s[i] == s[1..s[0].items][i - 1];
        }
      }
    }
  }

  /** What committing makes of a datatype: an optimized description with the same extent that denotes the type map
      under the block reading of CONTIGUOUS loops. Entering these loops gives the type map too, that is, the
      description is truthful, exactly if the datatype has no loop that merges. */
  ghost predicate Optimized(t: Type, opt: Desc) {
    && opt.extent == t.ub - t.lb && Committed(opt) && opt.used <= |t.desc|
    && Bytes(opt.d[..opt.used], ByBlock) == Bytes(t.desc, ByBody)
    && |Bytes(opt.d[..opt.used], ByBody)| == t.size
    && (Sound(opt.d[..opt.used], Truthful) <==> !Merges(t.desc, Apart))
    && (Bytes(opt.d[..opt.used], ByBody) == Bytes(t.desc, ByBody) <==> !Merges(t.desc, Apart))
  }

  /** The optimized description, entry by entry. */
  function OptimizedForm(t: Type): Desc {
    var first := FirstDisp(t.desc);
    var s := Pass(t.desc + [EndLoop(|t.desc|, first, t.size)], State(Bottom, [], 0, NOTHING));
    Desc(s + [EndLoop(|s|, first, t.size)], |s|, t.ub - t.lb)
  }

  /** opal_datatype_commit: the description and its optimized form. */
  method Commit(t: Type) returns (d: Desc, opt: Desc)
    requires Proper(t) && t.desc != []
    ensures d == Desc(t.desc + [EndLoop(|t.desc|, FirstDisp(t.desc), t.size)], |t.desc|, t.ub - t.lb)
    ensures Committed(d) && d.d[..d.used] == t.desc && Sound(t.desc, Truthful)
    ensures Optimized(t, opt) && opt == OptimizedForm(t)
  {
    hide Pass, Built, Tame, Merges, Bytes, Bounded, Build.Compact, Sound, Nested;
    var first := FirstDisp(t.desc);
    var all := t.desc + [EndLoop(|t.desc|, first, t.size)];
    d := Desc(all, |t.desc|, t.ub - t.lb);
    assert all[..|t.desc|] == t.desc;
    BuiltSound(t.desc);
    SoundSized(t.desc, Truthful);
    BuiltTame(t.desc);
    BuiltPositive(t.desc);
    var out, nb := OptimizeShort(all, |t.desc|);
    out[nb] := EndLoop(nb, first, t.size);
    opt := Desc(out[..nb + 1], nb, t.ub - t.lb);
    assert opt.d == out[..nb] + [out[nb]] && opt.d[..nb] == out[..nb];
    SoundReading(t.desc);
    SoundSized(out[..nb], Plain);
    SameSize(out[..nb]);
  }

  lemma SoundReading(s: seq<Entry>)
    requires Sound(s, Truthful)
    ensures Bytes(s, ByBody) == Bytes(s, ByBlock)
  {
    EitherReading(s, 0);
  }

  lemma SameSize(s: seq<Entry>)
    requires Sound(s, Sized)
    ensures |Bytes(s, ByBody)| == |Bytes(s, ByBlock)|
  {
    EqualSizes(s, 0);
  }
}
