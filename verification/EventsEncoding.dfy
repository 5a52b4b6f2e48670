/** How the list of a webhook's event names travels from the database to the cache: joined with commas
    by the query, split at commas by the service. */
module EventsEncoding {
  type Names = seq<string>

  const COMMA: char := ','

  function Join(names: Names): string {
    if names == [] then ""
    else if |names| == 1 then names[0]
    else names[0] + [COMMA] + Join(names[1..])
  }

  /** The text up to the first comma, or all of it. */
  function Head(text: string): (head: string)
    ensures |head| <= |text| && text[..|head|] == head && COMMA !in head
    ensures |head| < |text| ==> text[|head|] == COMMA
  {
    if text == "" || text[0] == COMMA then "" else [text[0]] + Head(text[1..])
  }

  function Split(text: string): Names
    decreases |text|
  {
    var head := Head(text);
    if |head| == |text| then [head] else [head] + Split(text[|head| + 1..])
  }

  /** The names a fetch finds: no name at all for an empty text. */
  function Decode(text: string): Names {
    if text == "" then [] else Split(text)
  }

  predicate CommaFree(names: Names) {
    forall k :: 0 <= k < |names| ==> COMMA !in names[k]
  }

  lemma {:induction false} HeadOfJoined(name: string, rest: string)
    requires COMMA !in name
    ensures Head(name) == name && Head(name + [COMMA] + rest) == name
  {
    if name != "" {
      HeadOfJoined(name[1..], rest);
      assert (name + [COMMA] + rest)[1..] == name[1..] + [COMMA] + rest;
    }
  }

  lemma {:induction false} SplitOfJoin(names: Names)
    requires names != [] && CommaFree(names)
    ensures Split(Join(names)) == names
  {
    HeadOfJoined(names[0], Join(names[1..]));
    if |names| > 1 {
      SplitOfJoin(names[1..]);
      assert (names[0] + [COMMA] + Join(names[1..]))[|names[0]| + 1..] == Join(names[1..]);
    }
  }

  lemma {:induction false} SplitIsCommaFree(text: string)
    ensures Split(text) != [] && CommaFree(Split(text))
    decreases |text|
  {
    var head := Head(text);
    if |head| < |text| {
      SplitIsCommaFree(text[|head| + 1..]);
    }
  }

  /** A stored list survives the trip exactly when no name has a comma and it is not the list of one
      empty name. */
  lemma RoundTripExactly(names: Names)
    ensures Decode(Join(names)) == names <==> (forall k :: 0 <= k < |names| ==> ',' !in names[k]) && names != [""]
  {
    SplitIsCommaFree(Join(names));
    if CommaFree(names) && names != [""] && names != [] {
      SplitOfJoin(names);
      NotEmpty(names);
    }
  }

  lemma NotEmpty(names: Names)
    requires names != [] && names != [""]
    ensures Join(names) != ""
  {
  }

  /** The lookup in a freshly fetched list agrees with the database's own `name = ANY(events)`, for all
      names, exactly for the lists that survive the trip. */
  lemma MembershipExactly(names: Names)
    ensures (forall name: string :: name in Decode(Join(names)) <==> name in names)
            <==> CommaFree(names) && names != [""]
  {
    RoundTripExactly(names);
    SplitIsCommaFree(Join(names));
    if !CommaFree(names) {
      var k :| 0 <= k < |names| && COMMA in names[k];
      assert names[k] in names;
      assert names[k] !in Decode(Join(names));
    }
    if names == [""] {
      assert "" in names;
      assert Decode(Join(names)) == [];
    }
  }
}
