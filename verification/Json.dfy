/** The JSON text of a list of bcrypt hashes, as the recovery_codes column stores it and as the
    compare-and-set of UseRecoveryCode spells its key. */
module Json {
  import opened Text

  /** The alphabet of a bcrypt hash: nothing JSON would escape, no comma, no quote. */
  predicate HashText(s: string) {
    forall c :: c in s ==> 'a' <= c <= 'z' || 'A' <= c <= 'Z' || '0' <= c <= '9' || c == '$' || c == '.' || c == '/'
  }

  predicate HashTexts(list: seq<string>) {
    forall k :: 0 <= k < |list| ==> HashText(list[k])
  }

  function Quoted(list: seq<string>): (q: seq<string>)
    ensures |q| == |list| && forall k :: 0 <= k < |list| ==> q[k] == "\"" + list[k] + "\""
  {
    seq(|list|, i requires 0 <= i < |list| => "\"" + list[i] + "\"")
  }

  function Marshal(list: seq<string>): string {
    if list == [] then "[]" else "[" + Join(Quoted(list), ',') + "]"
  }

  function Unquoted(parts: seq<string>): (list: seq<string>)
    requires forall k :: 0 <= k < |parts| ==> |parts[k]| >= 2
    ensures |list| == |parts| && forall k :: 0 <= k < |parts| ==> list[k] == parts[k][1..|parts[k]| - 1]
  {
    seq(|parts|, i requires 0 <= i < |parts| => parts[i][1..|parts[i]| - 1])
  }

  /** Reads such a text back; anything else reads as the empty list. */
  function Unmarshal(text: string): seq<string> {
    if |text| <= 2 then []
    else
      var parts := Split(text[1..|text| - 1], ',');
      if forall k :: 0 <= k < |parts| ==> |parts[k]| >= 2 then Unquoted(parts) else []
  }

  /** An array of strings, as encoding/json writes one. */
  lemma MarshalText(first: string, rest: seq<string>)
    ensures Marshal([]) == "[]"
    ensures Marshal([first]) == "[\"" + first + "\"]"
    ensures rest != [] ==> Marshal([first] + rest) == "[\"" + first + "\"," + Marshal(rest)[1..]
  {
    var q := Quoted([first] + rest);
    assert Quoted([first]) == ["\"" + first + "\""];
    if rest != [] {
      assert q[1..] == Quoted(rest);
      assert Marshal(rest)[1..] == Join(Quoted(rest), ',') + "]";
      assert Marshal([first] + rest) == "[" + (q[0] + [','] + Join(q[1..], ',')) + "]";
    }
  }

  lemma QuotedHasNoComma(list: seq<string>)
    requires HashTexts(list)
    ensures forall k :: 0 <= k < |list| ==> ',' !in Quoted(list)[k]
  {
    forall k | 0 <= k < |list|
      ensures ',' !in Quoted(list)[k]
    {
      assert HashText(list[k]);
    }
  }

  lemma UnmarshalUndoesMarshal(list: seq<string>)
    requires HashTexts(list)
    ensures Unmarshal(Marshal(list)) == list
  {
    if list != [] {
      var inner := Join(Quoted(list), ',');
      QuotedHasNoComma(list);
      SplitUndoesJoin(Quoted(list), ',');
      assert Marshal(list)[1..|Marshal(list)| - 1] == inner;
      assert |inner| >= |Quoted(list)[0]| >= 2;
      assert Unquoted(Quoted(list)) == list;
    }
  }

  /** So comparing the stored text is comparing the lists. */
  lemma MarshalInjective(a: seq<string>, b: seq<string>)
    requires HashTexts(a) && HashTexts(b)
    ensures Marshal(a) == Marshal(b) <==> a == b
  {
    UnmarshalUndoesMarshal(a);
    UnmarshalUndoesMarshal(b);
  }
}
