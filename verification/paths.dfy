/** Splitting the `from/to/amount` tail of a request path at `/`: the
    inverse of the concatenation the conversion handler uses to build it.
    This is a plain split of the string, not URL parsing. */
module Paths {
  import opened Js

  /** A string cut at its first `/`. */
  datatype Cut = NoSlash | Cut(before: string, after: string)

  /** Cuts `s` at its first `/`: the text before it (which holds no `/`)
      and the text after it. */
  function CutAtSlash(s: string): (r: Cut)
    ensures r.NoSlash? <==> '/' !in s
    ensures r.Cut? ==> s == r.before + "/" + r.after && '/' !in r.before
    decreases |s|
  {
    if |s| == 0 then NoSlash
    else if s[0] == '/' then Cut("", s[1..])
    else
      match CutAtSlash(s[1..])
      case NoSlash => NoSlash
      case Cut(b, a) => Cut([s[0]] + b, a)
  }

  /** Cutting a `/`-joined pair whose left part has no `/` recovers both parts. */
  lemma {:induction false} CutJoin(x: string, y: string)
    requires '/' !in x
    ensures CutAtSlash(x + "/" + y) == Cut(x, y)
    decreases |x|
  {
    var s := x + "/" + y;
    if |x| == 0 {
      assert s[0] == '/' && s[1..] == y;
    } else {
      assert s[0] == x[0] && x[0] != '/';
      assert s[1..] == x[1..] + "/" + y;
      CutJoin(x[1..], y);
      assert [x[0]] + x[1..] == x;
    }
  }

  /** The three fields of a conversion path. */
  datatype Pair = Pair(from: string, to: string, amount: string)

  /** The path `from/to/amount` of a conversion request. */
  function PairPath(p: Pair): string {
    p.from + "/" + p.to + "/" + p.amount
  }

  /** Reads a path of exactly three `/`-separated segments. */
  function ReadPair(path: string): (r: Option<Pair>)
    ensures r.Some? ==> PairPath(r.value) == path
    ensures r.Some? ==> '/' !in r.value.from && '/' !in r.value.to && '/' !in r.value.amount
  {
    var first := CutAtSlash(path);
    if first.NoSlash? then None
    else
      var second := CutAtSlash(first.after);
      if second.NoSlash? || '/' in second.after then None
      else
        var p := Pair(first.before, second.before, second.after);
        assert PairPath(p) == first.before + "/" + first.after;
        Some(p)
  }

  /** A built path reads back as the fields it was built from exactly when
      no field contains a `/`. */
  lemma ReadPairOfPath(p: Pair)
    ensures ReadPair(PairPath(p)) == Some(p) <==>
      '/' !in p.from && '/' !in p.to && '/' !in p.amount
  {
    if '/' !in p.from && '/' !in p.to && '/' !in p.amount {
      assert PairPath(p) == p.from + "/" + (p.to + "/" + p.amount);
      CutJoin(p.from, p.to + "/" + p.amount);
      CutJoin(p.to, p.amount);
    }
  }
}
