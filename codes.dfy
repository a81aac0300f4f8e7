/** Human-readable record codes such as USR003 and ITM005: a fixed prefix and
    a number zero-padded to three digits, the next one being one more than the
    largest number already in use under that prefix. */
module Codes {
  import opened Text

  /** The number carried by `id` when it starts with `prefix` and the rest
      parses as an integer. */
  function Suffix(prefix: string, id: string): Option<int>
  {
    if StartsWith(id, prefix) then ParseInt(id[|prefix|..]) else None
  }

  /** The largest suffix among the ids that carry `prefix`, or 0 when none does
      (negative suffixes never raise it above 0). */
  function MaxSuffix(prefix: string, ids: seq<string>): nat
  {
    if |ids| == 0 then 0
    else
      var m := MaxSuffix(prefix, ids[..|ids| - 1]);
      var s := Suffix(prefix, ids[|ids| - 1]);
      if s.Some? && s.value > m then s.value else m
  }

  /** MaxSuffix is an upper bound of every parsed suffix, and it is either 0 or
      the suffix of some id. */
  lemma {:induction false} MaxSuffixIsMaximum(prefix: string, ids: seq<string>)
    ensures forall i :: 0 <= i < |ids| && Suffix(prefix, ids[i]).Some? ==>
              Suffix(prefix, ids[i]).value <= MaxSuffix(prefix, ids)
    ensures MaxSuffix(prefix, ids) == 0 ||
            exists i :: 0 <= i < |ids| && Suffix(prefix, ids[i]) == Some(MaxSuffix(prefix, ids) as int)
  {
    if |ids| > 0 {
      var init := ids[..|ids| - 1];
      MaxSuffixIsMaximum(prefix, init);
      assert forall i :: 0 <= i < |init| ==> init[i] == ids[i];
    }
  }

  lemma ZeroPad3One()
    ensures ZeroPad3(1) == "001"
  {
    assert Digits(1) == "1";
    assert Zeros(2) == "00";
  }

  /** The code that follows the ones in `ids` carries the number MaxSuffix + 1
      and therefore is not one of them. */
  lemma NextCodeIsFresh(prefix: string, ids: seq<string>)
    ensures Suffix(prefix, prefix + ZeroPad3(MaxSuffix(prefix, ids) + 1)) == Some(MaxSuffix(prefix, ids) + 1)
    ensures prefix + ZeroPad3(MaxSuffix(prefix, ids) + 1) !in ids
  {
    var m := MaxSuffix(prefix, ids);
    var code := prefix + ZeroPad3(m + 1);
    ZeroPad3RoundTrip(m + 1);
    assert code[..|prefix|] == prefix && code[|prefix|..] == ZeroPad3(m + 1);
    MaxSuffixIsMaximum(prefix, ids);
  }

  /** The loop of `_generate_user_id` / `_generate_item_id`: "<prefix>001" for
      an empty store, otherwise the prefix and the zero-padded successor of the
      largest numeric suffix, skipping ids whose suffix does not parse. */
  method NextCode(prefix: string, ids: seq<string>) returns (code: string)
    ensures code == prefix + ZeroPad3(MaxSuffix(prefix, ids) + 1)
    ensures code !in ids
    ensures Suffix(prefix, code) == Some(MaxSuffix(prefix, ids) + 1)
    ensures |ids| == 0 ==> code == prefix + "001"
  {
    if |ids| == 0 {
      ZeroPad3One();
      NextCodeIsFresh(prefix, ids);
      return prefix + "001";
    }
    var maxId: nat := 0;
    var i := 0;
    while i < |ids|
      invariant 0 <= i <= |ids|
      invariant maxId == MaxSuffix(prefix, ids[..i])
    {
      ghost var before := ids[..i];
      assert ids[..i + 1] == before + [ids[i]];
      assert ids[..i + 1][..i] == before;
      if StartsWith(ids[i], prefix) {
        var num := ParseInt(ids[i][|prefix|..]);
        assert num == Suffix(prefix, ids[i]);
        if num.Some? && num.value > maxId {
          maxId := num.value;
        }
      }
      i := i + 1;
    }
    assert ids[..|ids|] == ids;
    code := prefix + ZeroPad3(maxId + 1);
    NextCodeIsFresh(prefix, ids);
  }
}
