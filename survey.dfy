/**
 * Rules every page generator of the site shares: the positional ids of
 * option inputs and the attributes an option input is written with.
 */
module Survey {
  import opened Text

  /** `{qid}_{n}`: the id of the n-th option (counting from 1) of question qid. */
  function PositionalId(qid: string, n: nat): (id: string)
    ensures |id| > |qid| + 1 && id[..|qid| + 1] == qid + "_"
    ensures id[|qid| + 1..] == NatToString(n)
  {
    qid + "_" + NatToString(n)
  }

  /** The options of one question never share an id. */
  lemma PositionalIdInjective(qid: string, m: nat, n: nat)
    requires PositionalId(qid, m) == PositionalId(qid, n)
    ensures m == n
  {
    NatToStringInjective(m, n);
  }

  /**
   * With question ids free of `_` (the tools write `q<digits>`), an option
   * id names its question and its position: ids never collide across
   * questions either.
   */
  lemma PositionalIdUnique(a: string, m: nat, b: string, n: nat)
    requires '_' !in a && '_' !in b
    requires PositionalId(a, m) == PositionalId(b, n)
    ensures a == b && m == n
  {
    var s := PositionalId(a, m);
    assert s[|a|] == '_' && s[|b|] == '_' by {
      assert s[..|a| + 1][|a|] == '_';
      assert PositionalId(b, n)[..|b| + 1][|b|] == '_';
    }
    assert |a| == |b|;
    assert a == s[..|a|] == b;
    NatToStringInjective(m, n);
  }

  /** The attributes an option input is written with. */
  datatype OptionInput = OptionInput(id: string, name: string, value: string, caption: string, required: bool)

  /** At most the first input carries `required`. */
  predicate RequiredAtMostFirst(inputs: seq<OptionInput>) {
    forall i :: 0 < i < |inputs| ==> !inputs[i].required
  }

  /** Inputs i and j (i != j) have different ids. */
  predicate DistinctIds(inputs: seq<OptionInput>) {
    forall i, j :: 0 <= i < j < |inputs| ==> inputs[i].id != inputs[j].id
  }
}
