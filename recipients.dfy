/** Recipient resolution: the To and CC addresses found in the 'Email To' and
    'Email CC' properties of the Dev Releases query results, with the fallback
    lists from the RECIPIENTS and CC_RECIPIENTS settings used when none are found
    or when reading the results raises. */
module Recipients {
  import opened PyJson
  import opened Text

  /** An address the script keeps: non-empty, containing '@', without
      surrounding whitespace. */
  predicate IsAddress(a: string) {
    a != "" && '@' in a && Stripped(a)
  }

  predicate NoDuplicates(xs: seq<string>) {
    forall i, j :: 0 <= i < j < |xs| ==> xs[i] != xs[j]
  }

  /** `list(s)`: the elements of `s`, each once, in some order. */
  ghost predicate Enumerates(xs: seq<string>, s: set<string>) {
    NoDuplicates(xs) && forall a :: a in xs <==> a in s
  }

  /** The stripped pieces that are kept: non-empty and containing '@'. */
  function Kept(pieces: seq<string>): (r: set<string>)
    ensures forall a :: a in r ==> IsAddress(a)
  {
    if pieces == [] then {}
    else
      var a := Strip(pieces[|pieces| - 1]);
      Kept(pieces[..|pieces| - 1]) + if a != "" && '@' in a then {a} else {}
  }

  /** The addresses in a comma-separated text: `email.strip()` of every piece
      of `text.split(',')` that is non-empty and contains '@'. */
  function AddressesIn(text: string): (r: set<string>)
    ensures forall a :: a in r ==> IsAddress(a)
  {
    Kept(Split(text, ','))
  }

  /** `text_item['text']['content']`, which `+=` onto a str only when it is a str. */
  function FragmentText(item: Json): Py<string> {
    var text :- Lookup(item, "text");
    var content :- Lookup(text, "content");
    if content.JStr? then Ok(content.s) else Raise(TypeError)
  }

  /** The concatenated contents of the fragments, or the first fragment's error. */
  function JoinedText(items: seq<Json>): (r: Py<string>)
    ensures r.Raise? ==> r.exc in {KeyError, TypeError}
  {
    if items == [] then Ok("")
    else
      var head :- FragmentText(items[0]);
      var rest :- JoinedText(items[1..]);
      Ok(head + rest)
  }

  /** The `email_text` the script builds from a truthy `rich_text` value. Iterating
      any other truthy value yields a str, a key or nothing iterable, so the
      `['text']` step raises TypeError. */
  function RichText(list: Json): (r: Py<string>)
    ensures r.Raise? ==> r.exc in {KeyError, TypeError}
  {
    if list.JArr? then JoinedText(list.items) else Raise(TypeError)
  }

  /** The addresses one page contributes through property `key` ('Email To' or
      'Email CC'): from a truthy `rich_text`, else from a truthy `email`. */
  function FieldAddresses(props: Json, key: string): (r: Py<set<string>>)
    ensures r.Ok? ==> forall a :: a in r.value ==> IsAddress(a)
  {
    var present :- Contains(key, props);
    if !present then Ok({})
    else
      var prop :- Lookup(props, key);
      var list :- Get(prop, "rich_text");
      if Truthy(list) then
        var text :- RichText(list);
        Ok(if Strip(text) != "" then AddressesIn(text) else {})
      else
        var email :- Get(prop, "email");
        if !Truthy(email) then Ok({})
        else if !email.JStr? then Raise(AttributeError)
        else
          var a := Strip(email.s);
          Ok(if a != "" && '@' in a then {a} else {})
  }

  /** The (To, CC) addresses of one query result. */
  function PageAddresses(item: Json): (r: Py<(set<string>, set<string>)>)
    ensures r.Ok? ==> forall a :: a in r.value.0 || a in r.value.1 ==> IsAddress(a)
  {
    var props :- Lookup(item, "properties");
    var to :- FieldAddresses(props, "Email To");
    var cc :- FieldAddresses(props, "Email CC");
    Ok((to, cc))
  }

  /** The union of the (To, CC) addresses of all results, or the first exception
      raised while reading them. Every address collected is usable. */
  function Collected(results: seq<Json>): (r: Py<(set<string>, set<string>)>)
    ensures r.Ok? ==> forall a :: a in r.value.0 || a in r.value.1 ==> IsAddress(a)
  {
    if results == [] then Ok(({}, {}))
    else
      var first :- PageAddresses(results[0]);
      var rest :- Collected(results[1..]);
      Ok((first.0 + rest.0, first.1 + rest.1))
  }

  /** `[e.strip() for e in pieces if e.strip()]`. */
  function NonBlank(pieces: seq<string>): (r: seq<string>)
    ensures |r| <= |pieces|
    ensures forall i :: 0 <= i < |r| ==> r[i] != "" && Stripped(r[i])
  {
    if pieces == [] then []
    else (if Strip(pieces[0]) != "" then [Strip(pieces[0])] else []) + NonBlank(pieces[1..])
  }

  /** `FALLBACK_RECIPIENTS` / `FALLBACK_CC_RECIPIENTS` from the setting `env`
      (None when unset): its comma-separated pieces, stripped, blanks dropped.
      No '@' check and no deduplication happen here. */
  function FallbackList(env: Option<string>): (r: seq<string>)
    ensures forall i :: 0 <= i < |r| ==> r[i] != "" && Stripped(r[i])
  {
    if env.None? || env.value == "" then [] else NonBlank(Split(env.value, ','))
  }

  // ---------------------------------------------------------------------------
  // The loops of `get_recipients_from_releases`, proved against the functions.

  /** `text + r` when `r` is a string, `r`'s exception otherwise. */
  function Prefixed(text: string, r: Py<string>): Py<string> {
    if r.Ok? then Ok(text + r.value) else r
  }

  lemma JoinedTextStep(items: seq<Json>, i: nat, text: string)
    requires i < |items|
    ensures Prefixed(text, JoinedText(items[i..])) ==
      (if FragmentText(items[i]).Raise? then Raise(FragmentText(items[i]).exc)
       else Prefixed(text + FragmentText(items[i]).value, JoinedText(items[i + 1..])))
  {
    assert items[i..][0] == items[i];
    assert items[i..][1..] == items[i + 1..];
    var piece := FragmentText(items[i]);
    if piece.Ok? {
      var rest := JoinedText(items[i + 1..]);
      if rest.Ok? {
        assert text + (piece.value + rest.value) == text + piece.value + rest.value;
      }
    }
  }

  /** `email_text += text_item['text']['content']` over the fragments. */
  method JoinFragments(list: Json) returns (r: Py<string>)
    ensures r == RichText(list)
  {
    if !list.JArr? {
      return Raise(TypeError);
    }
    var items := list.items;
    var text := "";
    var i := 0;
    assert items[0..] == items;
    assert JoinedText(items).Ok? ==> "" + JoinedText(items).value == JoinedText(items).value;
    while i < |items|
      invariant 0 <= i <= |items|
      invariant JoinedText(items) == Prefixed(text, JoinedText(items[i..]))
    {
      JoinedTextStep(items, i, text);
      var piece := FragmentText(items[i]);
      if piece.Raise? {
        return Raise(piece.exc);
      }
      text := text + piece.value;
      i := i + 1;
    }
    assert text + "" == text;
    r := Ok(text);
  }

  lemma KeptStep(pieces: seq<string>, i: nat)
    requires i < |pieces|
    ensures Kept(pieces[..i + 1]) ==
      Kept(pieces[..i]) + (if Strip(pieces[i]) != "" && '@' in Strip(pieces[i]) then {Strip(pieces[i])} else {})
  {
    assert pieces[..i + 1][..i] == pieces[..i];
    assert pieces[..i + 1][i] == pieces[i];
  }

  /** `for email in text.split(','): ... acc.add(email)`. */
  method AddAddresses(text: string, acc: set<string>) returns (r: set<string>)
    ensures r == acc + AddressesIn(text)
  {
    var pieces := Split(text, ',');
    r := acc;
    assert pieces[..0] == [];
    for i := 0 to |pieces|
      invariant r == acc + Kept(pieces[..i])
    {
      KeptStep(pieces, i);
      var a := Strip(pieces[i]);
      if a != "" && '@' in a {
        r := r + {a};
      }
    }
    assert pieces[..|pieces|] == pieces;
  }

  /** The handling of one of 'Email To' / 'Email CC' for one page, adding to `acc`. */
  method AddFieldAddresses(props: Json, key: string, acc: set<string>) returns (r: Py<set<string>>)
    ensures FieldAddresses(props, key).Raise? ==> r == Raise(FieldAddresses(props, key).exc)
    ensures FieldAddresses(props, key).Ok? ==> r == Ok(acc + FieldAddresses(props, key).value)
  {
    var present := Contains(key, props);
    if present.Raise? {
      return Raise(present.exc);
    }
    if !present.value {
      assert FieldAddresses(props, key) == Ok({});
      assert acc + {} == acc;
      return Ok(acc);
    }
    var prop := Lookup(props, key);
    if prop.Raise? {
      return Raise(prop.exc);
    }
    var list := Get(prop.value, "rich_text");
    if list.Raise? {
      return Raise(list.exc);
    }
    if Truthy(list.value) {
      var text := JoinFragments(list.value);
      if text.Raise? {
        return Raise(text.exc);
      }
      if Strip(text.value) != "" {
        var added := AddAddresses(text.value, acc);
        return Ok(added);
      }
      assert acc + {} == acc;
      return Ok(acc);
    }
    var email := Get(prop.value, "email");
    if Truthy(email.value) {
      if !email.value.JStr? {
        return Raise(AttributeError);
      }
      var a := Strip(email.value.s);
      if a != "" && '@' in a {
        return Ok(acc + {a});
      }
    }
    assert FieldAddresses(props, key) == Ok({});
    assert acc + {} == acc;
    return Ok(acc);
  }

  /** The sets collected so far joined with the outcome for the remaining results. */
  function Merged(toSet: set<string>, ccSet: set<string>, rest: Py<(set<string>, set<string>)>): Py<(set<string>, set<string>)> {
    if rest.Ok? then Ok((toSet + rest.value.0, ccSet + rest.value.1)) else rest
  }

  lemma CollectedStep(results: seq<Json>, i: nat, toSet: set<string>, ccSet: set<string>)
    requires i < |results|
    ensures Merged(toSet, ccSet, Collected(results[i..])) ==
      (var page := PageAddresses(results[i]);
       if page.Raise? then Raise(page.exc)
       else Merged(toSet + page.value.0, ccSet + page.value.1, Collected(results[i + 1..])))
  {
    assert results[i..][0] == results[i];
    assert results[i..][1..] == results[i + 1..];
    var page := PageAddresses(results[i]);
    var rest := Collected(results[i + 1..]);
    if page.Ok? && rest.Ok? {
      assert toSet + (page.value.0 + rest.value.0) == toSet + page.value.0 + rest.value.0;
      assert ccSet + (page.value.1 + rest.value.1) == ccSet + page.value.1 + rest.value.1;
    }
  }

  /** The handling of one query result, adding its To and CC addresses. */
  method AddPageAddresses(item: Json, toSet: set<string>, ccSet: set<string>)
    returns (r: Py<(set<string>, set<string>)>)
    ensures PageAddresses(item).Raise? ==> r == Raise(PageAddresses(item).exc)
    ensures PageAddresses(item).Ok? ==>
      r == Ok((toSet + PageAddresses(item).value.0, ccSet + PageAddresses(item).value.1))
  {
    var props := Lookup(item, "properties");
    if props.Raise? {
      return Raise(props.exc);
    }
    var t := AddFieldAddresses(props.value, "Email To", toSet);
    if t.Raise? {
      return Raise(t.exc);
    }
    var c := AddFieldAddresses(props.value, "Email CC", ccSet);
    if c.Raise? {
      return Raise(c.exc);
    }
    return Ok((t.value, c.value));
  }

  /** `list(s)`. */
  method ListOf(s: set<string>) returns (xs: seq<string>)
    ensures Enumerates(xs, s)
  {
    xs := [];
    var rest := s;
    while rest != {}
      invariant forall a :: a in s <==> a in xs || a in rest
      invariant forall a :: a in xs ==> a !in rest
      invariant NoDuplicates(xs)
      decreases |rest|
    {
      var a :| a in rest;
      xs := xs + [a];
      rest := rest - {a};
    }
  }

  /** The result-processing part of `get_recipients_from_releases`, with the
      query results passed in. The fallback lists are returned exactly when
      reading the results raises or when no address at all is found; otherwise
      each list holds the addresses collected for it, each once, and one of them
      may be empty. */
  method ResolveRecipients(results: seq<Json>, fallbackTo: seq<string>, fallbackCc: seq<string>)
    returns (to: seq<string>, cc: seq<string>)
    ensures Collected(results).Raise? ==> to == fallbackTo && cc == fallbackCc
    ensures Collected(results) == Ok(({}, {})) ==> to == fallbackTo && cc == fallbackCc
    ensures Collected(results).Ok? && Collected(results) != Ok(({}, {})) ==>
      && Enumerates(to, Collected(results).value.0)
      && Enumerates(cc, Collected(results).value.1)
      && (forall a :: a in to || a in cc ==> IsAddress(a))
  {
    var toSet: set<string> := {};
    var ccSet: set<string> := {};
    var i := 0;
    assert results[0..] == results;
    assert Collected(results).Ok? ==>
      {} + Collected(results).value.0 == Collected(results).value.0 &&
      {} + Collected(results).value.1 == Collected(results).value.1;
    while i < |results|
      invariant 0 <= i <= |results|
      invariant Collected(results) == Merged(toSet, ccSet, Collected(results[i..]))
    {
      CollectedStep(results, i, toSet, ccSet);
      var added := AddPageAddresses(results[i], toSet, ccSet);
      if added.Raise? {
        return fallbackTo, fallbackCc;
      }
      toSet, ccSet := added.value.0, added.value.1;
      i := i + 1;
    }
    assert results[i..] == [];
    assert Collected(results) == Ok((toSet, ccSet));
    to := ListOf(toSet);
    cc := ListOf(ccSet);
    if to == [] && cc == [] {
      assert toSet == {} && ccSet == {};
      return fallbackTo, fallbackCc;
    }
    if to != [] {
      assert to[0] in toSet;
    } else {
      assert cc[0] in ccSet;
    }
  }

  // ---------------------------------------------------------------------------
  // What the recipient reading promises.

  /** Piece `p` yields address `a`. */
  predicate Keeps(p: string, a: string) {
    Strip(p) == a && a != "" && '@' in a
  }

  /** Reference reading of `Kept`: `a` is kept exactly when some piece strips to
      it and it is non-empty and contains '@'. */
  lemma {:induction false} KeptMembers(pieces: seq<string>, a: string)
    ensures a in Kept(pieces) <==> exists i :: 0 <= i < |pieces| && Keeps(pieces[i], a)
  {
    if pieces != [] {
      var n := |pieces| - 1;
      var init := pieces[..n];
      KeptMembers(init, a);
      assert forall i :: 0 <= i < n ==> init[i] == pieces[i];
      var last := Strip(pieces[n]);
      assert Kept(pieces) == Kept(init) + (if last != "" && '@' in last then {last} else {});
      assert a in Kept(pieces) <==> a in Kept(init) || Keeps(pieces[n], a);
    }
  }

  /** A text that is all whitespace holds no address, so the `email_text.strip()`
      guard in front of the split never changes what is collected. */
  lemma BlankTextHasNoAddresses(text: string)
    requires Strip(text) == ""
    ensures AddressesIn(text) == {}
  {
    StripEmpty(text);
    SplitOfSpace(text, ',');
    KeptOfSpace(Split(text, ','));
  }

  lemma {:induction false} KeptOfSpace(pieces: seq<string>)
    requires forall i :: 0 <= i < |pieces| ==> AllSpace(pieces[i])
    ensures Kept(pieces) == {}
  {
    if pieces != [] {
      StripEmpty(pieces[|pieces| - 1]);
      KeptOfSpace(pieces[..|pieces| - 1]);
    }
  }

  /** On pieces that are valid addresses already, `Kept` keeps every one of them. */
  lemma KeptOfAddresses(xs: seq<string>)
    requires forall i :: 0 <= i < |xs| ==> IsAddress(xs[i])
    ensures Kept(xs) == set i | 0 <= i < |xs| :: xs[i]
  {
    forall a ensures a in Kept(xs) <==> a in set i | 0 <= i < |xs| :: xs[i] {
      KeptMembers(xs, a);
      forall i | 0 <= i < |xs| ensures Strip(xs[i]) == xs[i] {
        StripStripped(xs[i]);
      }
    }
  }

  /** Joining valid, comma-free addresses with commas and reading them back gives
      exactly those addresses. */
  lemma AddressesOfJoined(xs: seq<string>)
    requires forall i :: 0 <= i < |xs| ==> IsAddress(xs[i]) && ',' !in xs[i]
    ensures AddressesIn(JoinWith(xs, ',')) == set i | 0 <= i < |xs| :: xs[i]
  {
    if xs == [] {
      assert Split("", ',') == [""];
      assert Kept([""]) == Kept([""][..0]);
    } else {
      SplitJoin(xs, ',');
      KeptOfAddresses(xs);
    }
  }

  /** A fragment's text is read exactly when its `text.content` is a string. */
  lemma FragmentTextPath(item: Json)
    ensures FragmentText(item).Ok? <==> Path(item, ["text", "content"]).Some? && Path(item, ["text", "content"]).value.JStr?
    ensures FragmentText(item).Ok? ==> Path(item, ["text", "content"]) == Some(JStr(FragmentText(item).value))
  {
    TwoSteps(item, "text", "content");
    var text := Lookup(item, "text");
    if text.Ok? {
      OneStep(text.value, "content");
    }
  }

  /** A Notion rich-text list: a list of fragments whose `text.content` is a string. */
  predicate NotionRichText(list: Json) {
    list.JArr? && forall i :: 0 <= i < |list.items| ==>
      Path(list.items[i], ["text", "content"]).Some? && Path(list.items[i], ["text", "content"]).value.JStr?
  }

  /** The fragments join without error exactly when every fragment is well formed. */
  lemma {:induction false} JoinedTextOk(items: seq<Json>)
    ensures JoinedText(items).Ok? <==> forall i :: 0 <= i < |items| ==> FragmentText(items[i]).Ok?
  {
    if items != [] {
      JoinedTextOk(items[1..]);
      if FragmentText(items[0]).Ok? && JoinedText(items[1..]).Ok? {
        forall i | 0 <= i < |items| ensures FragmentText(items[i]).Ok? {
          if i > 0 {
            assert items[i] == items[1..][i - 1];
          }
        }
      }
      if JoinedText(items[1..]).Raise? {
        var j :| 0 <= j < |items[1..]| && FragmentText(items[1..][j]).Raise?;
        assert items[1..][j] == items[j + 1];
      }
    }
  }

  /** With a truthy `rich_text`, the property's addresses are those of the joined
      fragments, whatever its `email` holds. */
  lemma RichTextAddresses(props: Json, key: string, text: string)
    requires props.JObj? && Path(props, [key]).Some?
    requires var prop := Path(props, [key]).value;
      prop.JObj? && Path(prop, ["rich_text"]).Some? && Truthy(Path(prop, ["rich_text"]).value)
      && RichText(Path(prop, ["rich_text"]).value) == Ok(text)
    ensures FieldAddresses(props, key) == Ok(AddressesIn(text))
  {
    OneStep(props, key);
    OneStep(Path(props, [key]).value, "rich_text");
    if Strip(text) == "" {
      BlankTextHasNoAddresses(text);
    }
  }

  /** A truthy `rich_text` whose text is only whitespace gives no address, and the
      `email` value is not consulted. */
  lemma BlankRichTextShadowsEmail(props: Json, key: string, text: string)
    requires props.JObj? && Path(props, [key]).Some?
    requires var prop := Path(props, [key]).value;
      prop.JObj? && Path(prop, ["rich_text"]).Some? && Truthy(Path(prop, ["rich_text"]).value)
      && RichText(Path(prop, ["rich_text"]).value) == Ok(text)
    requires Strip(text) == ""
    ensures FieldAddresses(props, key) == Ok({})
  {
    RichTextAddresses(props, key, text);
    BlankTextHasNoAddresses(text);
  }

  /** With a falsy or missing `rich_text` and a string `email`, the property gives
      at most one address: the whole stripped string, commas included. */
  lemma EmailAddress(props: Json, key: string, s: string)
    requires props.JObj? && Path(props, [key]).Some?
    requires var prop := Path(props, [key]).value;
      prop.JObj? && !Truthy(Path(prop, ["rich_text"]).GetOr(JNull))
      && Path(prop, ["email"]) == Some(JStr(s))
    ensures FieldAddresses(props, key).Ok?
    ensures forall a :: a in FieldAddresses(props, key).value <==> a == Strip(s) && IsAddress(a)
  {
    OneStep(props, key);
    OneStep(Path(props, [key]).value, "rich_text");
    OneStep(Path(props, [key]).value, "email");
    if s == "" {
      assert Strip(s) == "" by {
        StripEmpty(s);
      }
    }
    assert FieldAddresses(props, key) ==
      Ok(if Strip(s) != "" && '@' in Strip(s) then {Strip(s)} else {});
  }

  /** An 'Email To' / 'Email CC' property as Notion returns it: a dict whose
      truthy `rich_text` is a fragment list, or else whose truthy `email` is a string. */
  predicate AddressProperty(prop: Json) {
    && prop.JObj?
    && var list := Path(prop, ["rich_text"]).GetOr(JNull);
       var email := Path(prop, ["email"]).GetOr(JNull);
       (Truthy(list) ==> NotionRichText(list)) && (!Truthy(list) && Truthy(email) ==> email.JStr?)
  }

  /** Reading a well-formed property of a dict of properties never raises. */
  lemma FieldNeverRaises(props: Json, key: string)
    requires props.JObj?
    requires Path(props, [key]).Some? ==> AddressProperty(Path(props, [key]).value)
    ensures FieldAddresses(props, key).Ok?
  {
    OneStep(props, key);
    if Path(props, [key]).Some? {
      var prop := Path(props, [key]).value;
      OneStep(prop, "rich_text");
      OneStep(prop, "email");
      var list := Path(prop, ["rich_text"]).GetOr(JNull);
      if Truthy(list) {
        forall i | 0 <= i < |list.items| ensures FragmentText(list.items[i]).Ok? {
          FragmentTextPath(list.items[i]);
        }
        JoinedTextOk(list.items);
      }
    }
  }

  /** Reading the results raises exactly when reading one of the pages raises. */
  lemma {:induction false} CollectedRaises(results: seq<Json>)
    ensures Collected(results).Raise? <==> exists i :: 0 <= i < |results| && PageAddresses(results[i]).Raise?
  {
    if results != [] {
      CollectedRaises(results[1..]);
      if Collected(results[1..]).Raise? {
        var j :| 0 <= j < |results[1..]| && PageAddresses(results[1..][j]).Raise?;
        assert results[1..][j] == results[j + 1];
      }
      if exists i :: 0 <= i < |results| && PageAddresses(results[i]).Raise? {
        var i :| 0 <= i < |results| && PageAddresses(results[i]).Raise?;
        if i > 0 {
          assert results[i] == results[1..][i - 1];
        }
      }
    }
  }

  /** When nothing raises, an address is collected for To (CC) exactly when some
      page contributes it to To (CC). */
  lemma CollectedMembers(results: seq<Json>, a: string)
    requires Collected(results).Ok?
    ensures a in Collected(results).value.0 <==>
      exists i :: 0 <= i < |results| && PageAddresses(results[i]).Ok? && a in PageAddresses(results[i]).value.0
    ensures a in Collected(results).value.1 <==>
      exists i :: 0 <= i < |results| && PageAddresses(results[i]).Ok? && a in PageAddresses(results[i]).value.1
  {
    CollectedToMembers(results, a);
    CollectedCcMembers(results, a);
  }

  /** The To half of CollectedMembers. */
  lemma {:induction false} CollectedToMembers(results: seq<Json>, a: string)
    requires Collected(results).Ok?
    ensures a in Collected(results).value.0 <==>
      exists i :: 0 <= i < |results| && PageAddresses(results[i]).Ok? && a in PageAddresses(results[i]).value.0
  {
    if results != [] {
      CollectedToMembers(results[1..], a);
      forall i | 0 <= i < |results[1..]| ensures results[1..][i] == results[i + 1] {
      }
      if exists i :: 0 <= i < |results| && PageAddresses(results[i]).Ok? && a in PageAddresses(results[i]).value.0 {
        var i :| 0 <= i < |results| && PageAddresses(results[i]).Ok? && a in PageAddresses(results[i]).value.0;
        if i > 0 {
          assert results[i] == results[1..][i - 1];
        }
      }
    }
  }

  /** The CC half of CollectedMembers. */
  lemma {:induction false} CollectedCcMembers(results: seq<Json>, a: string)
    requires Collected(results).Ok?
    ensures a in Collected(results).value.1 <==>
      exists i :: 0 <= i < |results| && PageAddresses(results[i]).Ok? && a in PageAddresses(results[i]).value.1
  {
    if results != [] {
      CollectedCcMembers(results[1..], a);
      forall i | 0 <= i < |results[1..]| ensures results[1..][i] == results[i + 1] {
      }
      if exists i :: 0 <= i < |results| && PageAddresses(results[i]).Ok? && a in PageAddresses(results[i]).value.1 {
        var i :| 0 <= i < |results| && PageAddresses(results[i]).Ok? && a in PageAddresses(results[i]).value.1;
        if i > 0 {
          assert results[i] == results[1..][i - 1];
        }
      }
    }
  }

  lemma {:induction false} NonBlankKeeps(xs: seq<string>)
    requires forall i :: 0 <= i < |xs| ==> xs[i] != "" && Stripped(xs[i])
    ensures NonBlank(xs) == xs
  {
    if xs != [] {
      assert Strip(xs[0]) == xs[0] by {
        StripStripped(xs[0]);
      }
      NonBlankKeeps(xs[1..]);
    }
  }

  /** Writing a fallback list as a comma-separated setting and parsing it back
      gives the same list, in order. */
  lemma FallbackOfJoined(xs: seq<string>)
    requires forall i :: 0 <= i < |xs| ==> xs[i] != "" && Stripped(xs[i]) && ',' !in xs[i]
    ensures FallbackList(Some(JoinWith(xs, ','))) == xs
  {
    if xs != [] {
      SplitJoin(xs, ',');
      NonBlankKeeps(xs);
      if |xs| > 1 {
        assert JoinWith(xs, ',') == xs[0] + [','] + JoinWith(xs[1..], ',');
      }
    }
  }

  /** The comprehension keeps exactly the non-blank stripped pieces. */
  lemma {:induction false} NonBlankMembers(pieces: seq<string>, a: string)
    ensures a in NonBlank(pieces) <==> a != "" && exists i :: 0 <= i < |pieces| && Strip(pieces[i]) == a
  {
    if pieces != [] {
      NonBlankMembers(pieces[1..], a);
      if exists i :: 0 <= i < |pieces| && Strip(pieces[i]) == a {
        var i :| 0 <= i < |pieces| && Strip(pieces[i]) == a;
        if i > 0 {
          assert pieces[1..][i - 1] == pieces[i];
        }
      }
      if a != "" && exists i :: 0 <= i < |pieces[1..]| && Strip(pieces[1..][i]) == a {
        var i :| 0 <= i < |pieces[1..]| && Strip(pieces[1..][i]) == a;
        assert pieces[1..][i] == pieces[i + 1];
      }
    }
  }

  /** The comprehension keeps the order of the pieces: it works piece by piece. */
  lemma {:induction false} NonBlankAppend(p: seq<string>, q: seq<string>)
    ensures NonBlank(p + q) == NonBlank(p) + NonBlank(q)
  {
    if p == [] {
      assert p + q == q;
    } else {
      assert (p + q)[0] == p[0];
      assert (p + q)[1..] == p[1..] + q;
      NonBlankAppend(p[1..], q);
    }
  }

  /** A fallback entry is exactly a non-blank stripped comma-separated piece of
      the setting; an unset setting gives none. */
  lemma FallbackMembers(env: Option<string>, a: string)
    ensures a in FallbackList(env) <==>
      env.Some? && a != "" && exists i :: 0 <= i < |Split(env.value, ',')| && Strip(Split(env.value, ',')[i]) == a
  {
    if env.Some? {
      NonBlankMembers(Split(env.value, ','), a);
      if env.value == "" {
        assert Split("", ',') == [""];
        assert Strip("") == "";
        assert forall i :: 0 <= i < |Split(env.value, ',')| ==> Strip(Split(env.value, ',')[i]) == "";
      }
    }
  }

  /** Padding and blank pieces of a setting are dropped. */
  lemma FallbackExample()
    ensures FallbackList(Some("a@x.com, ,b@y.com ")) == ["a@x.com", "b@y.com"]
  {
    ExampleSplit();
    ExampleNonBlank();
  }

  lemma ExampleSplit()
    ensures Split("a@x.com, ,b@y.com ", ',') == ["a@x.com", " ", "b@y.com "]
  {
    var pieces := ["a@x.com", " ", "b@y.com "];
    assert "a@x.com, ,b@y.com " == JoinWith(pieces, ',') by {
      assert JoinWith(pieces[2..], ',') == "b@y.com ";
      assert JoinWith(pieces[1..], ',') == " " + [','] + "b@y.com ";
    }
    forall i | 0 <= i < |pieces| ensures ',' !in pieces[i] {
    }
    SplitJoin(pieces, ',');
  }

  lemma ExampleNonBlank()
    ensures NonBlank(["a@x.com", " ", "b@y.com "]) == ["a@x.com", "b@y.com"]
  {
    var pieces := ["a@x.com", " ", "b@y.com "];
    assert Strip("a@x.com") == "a@x.com" by {
      StripStripped("a@x.com");
    }
    assert Strip(" ") == "" by {
      StripEmpty(" ");
    }
    assert Strip("b@y.com ") == "b@y.com" by {
      assert TrimLeft("b@y.com ") == "b@y.com ";
      assert "b@y.com "[..|"b@y.com "| - 1] == "b@y.com";
      assert TrimRight("b@y.com") == "b@y.com";
    }
    assert NonBlank(pieces[2..]) == ["b@y.com"];
    assert NonBlank(pieces[1..]) == ["b@y.com"];
  }
}
