/**
 * The members of a JSON object as the dispatch table sees them: by the
 * constant their name looks up to. Every switch of the plugin acts on the
 * last member of a kind, so that is the query here.
 */
module JsonFields {
  import opened Common
  import opened JsonTree
  import VA = VulnAttributes

  /** Whether a member's name looks up to one of `names`. */
  predicate Names(m: Member, names: set<VA.VulnAttribute>)
  {
    VA.Get(m.key).Some? && VA.Get(m.key).value in names
  }

  /** The last member whose name looks up to one of `names`, if any. */
  function LastFor(ms: seq<Member>, names: set<VA.VulnAttribute>): (r: Option<Member>)
    ensures r.Some? ==> r.value in ms && Names(r.value, names)
    decreases |ms|
  {
    if ms == [] then None
    else if Names(ms[|ms| - 1], names) then Some(ms[|ms| - 1])
    else LastFor(ms[..|ms| - 1], names)
  }

  /** A member in front decides only where no later member qualifies. */
  lemma {:induction false} LastForCons(m: Member, ms: seq<Member>, names: set<VA.VulnAttribute>)
    ensures LastFor([m] + ms, names)
         == if LastFor(ms, names).Some? then LastFor(ms, names) else if Names(m, names) then Some(m) else None
    decreases |ms|
  {
    var t := [m] + ms;
    if ms == [] {
      assert t[..|t| - 1] == [];
    } else {
      assert t[|t| - 1] == ms[|ms| - 1] && t[..|t| - 1] == [m] + ms[..|ms| - 1];
      LastForCons(m, ms[..|ms| - 1], names);
    }
  }

  /** A member at the back decides if it qualifies; otherwise the members before it do. */
  lemma LastForSnoc(ms: seq<Member>, x: Member, names: set<VA.VulnAttribute>)
    ensures LastFor(ms + [x], names) == if Names(x, names) then Some(x) else LastFor(ms, names)
  {
    var t := ms + [x];
    assert t[|t| - 1] == x && t[..|t| - 1] == ms;
  }

  /** A member that does not qualify can be inserted anywhere without changing the answer. */
  lemma {:induction false} LastForInsertion(ms1: seq<Member>, m: Member, ms2: seq<Member>, names: set<VA.VulnAttribute>)
    requires !Names(m, names)
    ensures LastFor(ms1 + [m] + ms2, names) == LastFor(ms1 + ms2, names)
    decreases |ms2|
  {
    if ms2 == [] {
      assert ms1 + [m] + ms2 == ms1 + [m] && ms1 + ms2 == ms1;
      LastForSnoc(ms1, m, names);
    } else {
      var init, last := ms2[..|ms2| - 1], ms2[|ms2| - 1];
      assert ms1 + [m] + ms2 == (ms1 + [m] + init) + [last];
      assert ms1 + ms2 == (ms1 + init) + [last];
      LastForSnoc(ms1 + [m] + init, last, names);
      LastForSnoc(ms1 + init, last, names);
      if !Names(last, names) {
        LastForInsertion(ms1, m, init, names);
      }
    }
  }

}
