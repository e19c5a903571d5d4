/** The small rules of the email itself: the colour of a task's priority badge,
    the send list built from the To and CC recipients (and the early return when
    there are none), and the rendering of the signature setting in HTML. */
module Delivery {
  import opened PyJson
  import opened Text

  const Red := "#dc3545"
  const Orange := "#fd7e14"
  const Grey := "#6c757d"

  /** `s.lower() == w`, stated character by character for a lower-case word `w`. */
  predicate EqualsIgnoringCase(s: string, w: string) {
    |s| == |w| && forall i :: 0 <= i < |s| ==> LowerChar(s[i]) == LowerChar(w[i])
  }

  /** The badge colour for a task's priority: no badge for a falsy priority,
      red for high or critical, orange for medium and grey for anything else.
      `.lower()` on a truthy value that is not a str raises AttributeError. */
  function PriorityColour(priority: Json): (r: Py<Option<string>>)
    ensures r.Ok? && r.value.Some? ==> r.value.value in {Red, Orange, Grey}
  {
    if !Truthy(priority) then Ok(None)
    else if !priority.JStr? then Raise(AttributeError)
    else
      var p := Lower(priority.s);
      Ok(Some(if p == "high" || p == "critical" then Red else if p == "medium" then Orange else Grey))
  }

  lemma LowerIs(s: string, w: string)
    requires forall i :: 0 <= i < |w| ==> LowerChar(w[i]) == w[i]
    ensures Lower(s) == w <==> EqualsIgnoringCase(s, w)
  {
    if EqualsIgnoringCase(s, w) {
      assert forall i :: 0 <= i < |s| ==> Lower(s)[i] == w[i];
    }
  }

  /** The colour of a non-empty string priority, compared without regard to case. */
  lemma PriorityColours(p: string)
    requires p != ""
    ensures PriorityColour(JStr(p)) == Ok(Some(Red)) <==>
      EqualsIgnoringCase(p, "high") || EqualsIgnoringCase(p, "critical")
    ensures PriorityColour(JStr(p)) == Ok(Some(Orange)) <==> EqualsIgnoringCase(p, "medium")
    ensures PriorityColour(JStr(p)) == Ok(Some(Grey)) <==>
      !EqualsIgnoringCase(p, "high") && !EqualsIgnoringCase(p, "critical") && !EqualsIgnoringCase(p, "medium")
  {
    LowerIs(p, "high");
    LowerIs(p, "critical");
    LowerIs(p, "medium");
  }

  /** A badge is drawn exactly for a truthy priority; only a truthy value that is
      not a string makes the badge fail. */
  lemma PriorityBadge(priority: Json)
    ensures PriorityColour(priority) == Ok(None) <==> !Truthy(priority)
    ensures PriorityColour(priority).Raise? <==> Truthy(priority) && !priority.JStr?
  {
  }

  /** Case does not matter, surrounding whitespace does. */
  lemma PriorityExamples()
    ensures PriorityColour(JStr("Critical")) == Ok(Some(Red))
    ensures PriorityColour(JStr("HIGH")) == Ok(Some(Red))
    ensures PriorityColour(JStr("Medium")) == Ok(Some(Orange))
    ensures PriorityColour(JStr("Low")) == Ok(Some(Grey))
    ensures PriorityColour(JStr(" high")) == Ok(Some(Grey))
    ensures PriorityColour(JStr("")) == Ok(None)
  {
    assert PriorityColour(JStr("Critical")) == Ok(Some(Red)) by {
      PriorityColours("Critical");
    }
    assert PriorityColour(JStr("HIGH")) == Ok(Some(Red)) by {
      PriorityColours("HIGH");
    }
    assert PriorityColour(JStr("Medium")) == Ok(Some(Orange)) by {
      PriorityColours("Medium");
    }
    assert PriorityColour(JStr("Low")) == Ok(Some(Grey)) by {
      PriorityColours("Low");
    }
    assert PriorityColour(JStr(" high")) == Ok(Some(Grey)) by {
      PriorityColours(" high");
    }
  }

  // ---------------------------------------------------------------------------
  // The send list.

  /** `[e.strip() for e in xs]`: one entry per entry, none with surrounding
      whitespace; lists of already-stripped addresses, such as the resolved
      recipients or the fallback lists, are left as they are. */
  function StrippedAll(xs: seq<string>): (r: seq<string>)
    ensures |r| == |xs|
    ensures forall i :: 0 <= i < |r| ==> Stripped(r[i])
    ensures (forall i :: 0 <= i < |xs| ==> Stripped(xs[i])) ==> r == xs
  {
    var r := seq(|xs|, i requires 0 <= i < |xs| => Strip(xs[i]));
    assert (forall i :: 0 <= i < |xs| ==> Stripped(xs[i])) ==> r == xs by {
      if forall i :: 0 <= i < |xs| ==> Stripped(xs[i]) {
        forall i | 0 <= i < |xs| ensures r[i] == xs[i] {
          StripStripped(xs[i]);
        }
      }
    }
    r
  }

  /** The recipients `send_email` hands to the mail server: None when both lists
      are empty (nothing is sent), otherwise every To entry stripped followed by
      every CC entry stripped, an address in both lists appearing twice. */
  method SendList(to: seq<string>, cc: seq<string>) returns (r: Option<seq<string>>)
    ensures r.None? <==> to == [] && cc == []
    ensures r.Some? ==> r.value == StrippedAll(to) + StrippedAll(cc)
  {
    if to == [] && cc == [] {
      return None;
    }
    var all: seq<string> := [];
    for i := 0 to |to|
      invariant all == StrippedAll(to[..i])
    {
      assert StrippedAll(to[..i + 1]) == StrippedAll(to[..i]) + [Strip(to[i])];
      all := all + [Strip(to[i])];
    }
    assert to[..|to|] == to;
    for i := 0 to |cc|
      invariant all == StrippedAll(to) + StrippedAll(cc[..i])
    {
      assert StrippedAll(cc[..i + 1]) == StrippedAll(cc[..i]) + [Strip(cc[i])];
      all := all + [Strip(cc[i])];
    }
    assert cc[..|cc|] == cc;
    return Some(all);
  }

  // ---------------------------------------------------------------------------
  // The signature setting.

  /** The two characters backslash and 'n', which a one-line setting uses for a line break. */
  const EscapedNewline := "\\n"

  /** No backslash-n pair occurs in `s`. */
  predicate NoEscapedNewline(s: string) {
    forall i :: 0 <= i < |s| - 1 ==> !(s[i] == '\\' && s[i + 1] == 'n')
  }

  /** The signature taken from the EMAIL_SIGNATURE setting: each backslash-n pair
      becomes `<br>`; an empty setting gives no signature. */
  function SignatureHtml(setting: string): (r: string)
    ensures NoEscapedNewline(r)
    ensures |r| >= |setting|
  {
    if setting == "" then ""
    else
      ReplaceLeavesNone(setting);
      Replace(setting, EscapedNewline, "<br>")
  }

  /** The replacement starts with `<` where it replaced, and with the original
      first character elsewhere. */
  lemma ReplaceHead(s: string)
    requires s != []
    ensures Replace(s, EscapedNewline, "<br>") != []
    ensures var r := Replace(s, EscapedNewline, "<br>");
      if |s| >= 2 && s[..2] == EscapedNewline then r[..4] == "<br>" else r[0] == s[0]
  {
  }

  /** After the replacement no backslash-n pair remains. */
  lemma {:induction false} ReplaceLeavesNone(s: string)
    ensures NoEscapedNewline(Replace(s, EscapedNewline, "<br>"))
    decreases |s|
  {
    var r := Replace(s, EscapedNewline, "<br>");
    if |s| < 2 {
    } else if s[..2] == EscapedNewline {
      var rest := Replace(s[2..], EscapedNewline, "<br>");
      ReplaceLeavesNone(s[2..]);
      assert r == "<br>" + rest;
      forall i | 0 <= i < |r| - 1 ensures !(r[i] == '\\' && r[i + 1] == 'n') {
        if i >= 4 {
          assert r[i] == rest[i - 4] && r[i + 1] == rest[i - 3];
        }
      }
    } else {
      var rest := Replace(s[1..], EscapedNewline, "<br>");
      ReplaceLeavesNone(s[1..]);
      ReplaceHead(s[1..]);
      assert r == [s[0]] + rest;
      forall i | 0 <= i < |r| - 1 ensures !(r[i] == '\\' && r[i + 1] == 'n') {
        if i >= 1 {
          assert r[i] == rest[i - 1] && r[i + 1] == rest[i];
        } else if s[0] == '\\' {
          assert s[1] != 'n' by {
            assert s[..2] == [s[0], s[1]];
          }
        }
      }
    }
  }

  /** The replacement never shortens, and lengthens whenever there was a pair to replace. */
  lemma {:induction false} ReplaceLength(s: string)
    ensures |Replace(s, EscapedNewline, "<br>")| >= |s|
    ensures !NoEscapedNewline(s) ==> |Replace(s, EscapedNewline, "<br>")| > |s|
    decreases |s|
  {
    if |s| >= 2 {
      if s[..2] == EscapedNewline {
        ReplaceLength(s[2..]);
      } else {
        ReplaceLength(s[1..]);
        if !NoEscapedNewline(s) {
          var i :| 0 <= i < |s| - 1 && s[i] == '\\' && s[i + 1] == 'n';
          if i > 0 {
            assert s[1..][i - 1] == s[i] && s[1..][i] == s[i + 1];
          }
        }
      }
    }
  }

  /** A setting without backslash-n pairs is passed through unchanged. */
  lemma {:induction false} ReplaceKeeps(s: string)
    requires NoEscapedNewline(s)
    ensures Replace(s, EscapedNewline, "<br>") == s
    decreases |s|
  {
    if |s| >= 2 {
      assert s[..2] != EscapedNewline by {
        assert !(s[0] == '\\' && s[1] == 'n');
      }
      assert NoEscapedNewline(s[1..]) by {
        forall i | 0 <= i < |s[1..]| - 1 ensures !(s[1..][i] == '\\' && s[1..][i + 1] == 'n') {
          assert s[1..][i] == s[i + 1] && s[1..][i + 1] == s[i + 2];
        }
      }
      ReplaceKeeps(s[1..]);
    }
  }

  /** A string that starts with a backslash-n pair: `<br>`, then the rest rewritten. */
  lemma ReplaceAtPair(s: string)
    requires |s| >= 2 && s[..2] == EscapedNewline
    ensures Replace(s, EscapedNewline, "<br>") == "<br>" + Replace(s[2..], EscapedNewline, "<br>")
  {
  }

  /** A string that does not start with a backslash-n pair: its first character,
      then the rest rewritten. */
  lemma ReplaceAtChar(s: string)
    requires s != [] && !(|s| >= 2 && s[..2] == EscapedNewline)
    ensures Replace(s, EscapedNewline, "<br>") == [s[0]] + Replace(s[1..], EscapedNewline, "<br>")
  {
    if |s| == 1 {
      assert s[1..] == [];
    }
  }

  /** Each backslash-n pair becomes `<br>`, and the text on either side of it is
      rewritten on its own. */
  lemma {:induction false} ReplaceAround(a: string, b: string)
    ensures Replace(a + EscapedNewline + b, EscapedNewline, "<br>") ==
      Replace(a, EscapedNewline, "<br>") + "<br>" + Replace(b, EscapedNewline, "<br>")
    decreases |a|, 1
  {
    if a == [] {
      var s := a + EscapedNewline + b;
      assert s[..2] == EscapedNewline && s[2..] == b by {
        assert s == EscapedNewline + b;
      }
      ReplaceAtPair(s);
    } else if |a| >= 2 && a[..2] == EscapedNewline {
      ReplaceAroundPair(a, b);
    } else {
      ReplaceAroundChar(a, b);
    }
  }

  /** The case of ReplaceAround where the text before the pair starts with a pair. */
  lemma {:induction false} ReplaceAroundPair(a: string, b: string)
    requires |a| >= 2 && a[..2] == EscapedNewline
    ensures Replace(a + EscapedNewline + b, EscapedNewline, "<br>") ==
      Replace(a, EscapedNewline, "<br>") + "<br>" + Replace(b, EscapedNewline, "<br>")
    decreases |a|, 0
  {
    var s := a + EscapedNewline + b;
    var ra, rb := Replace(a[2..], EscapedNewline, "<br>"), Replace(b, EscapedNewline, "<br>");
    var rest := Replace(s[2..], EscapedNewline, "<br>");
    assert Replace(s, EscapedNewline, "<br>") == "<br>" + rest by {
      assert s[..2] == a[..2];
      ReplaceAtPair(s);
    }
    assert rest == ra + "<br>" + rb by {
      assert s[2..] == a[2..] + EscapedNewline + b;
      ReplaceAround(a[2..], b);
    }
    assert Replace(a, EscapedNewline, "<br>") == "<br>" + ra by {
      ReplaceAtPair(a);
    }
    assert "<br>" + (ra + "<br>" + rb) == ("<br>" + ra) + "<br>" + rb;
  }

  /** The case of ReplaceAround where the text before the pair does not start with one. */
  lemma {:induction false} ReplaceAroundChar(a: string, b: string)
    requires a != [] && !(|a| >= 2 && a[..2] == EscapedNewline)
    ensures Replace(a + EscapedNewline + b, EscapedNewline, "<br>") ==
      Replace(a, EscapedNewline, "<br>") + "<br>" + Replace(b, EscapedNewline, "<br>")
    decreases |a|, 0
  {
    var s := a + EscapedNewline + b;
    var ra, rb := Replace(a[1..], EscapedNewline, "<br>"), Replace(b, EscapedNewline, "<br>");
    var rest := Replace(s[1..], EscapedNewline, "<br>");
    assert Replace(s, EscapedNewline, "<br>") == [a[0]] + rest by {
      assert s[..2] != EscapedNewline by {
        if |a| == 1 {
          assert s[1] == '\\';
        } else {
          assert s[..2] == a[..2];
        }
      }
      ReplaceAtChar(s);
    }
    assert rest == ra + "<br>" + rb by {
      assert s[1..] == a[1..] + EscapedNewline + b;
      ReplaceAround(a[1..], b);
    }
    assert Replace(a, EscapedNewline, "<br>") == [a[0]] + ra by {
      ReplaceAtChar(a);
    }
    assert [a[0]] + (ra + "<br>" + rb) == ([a[0]] + ra) + "<br>" + rb;
  }

  /** The signature of a setting with a backslash-n pair is the signature of the
      text before it, then `<br>`, then the signature of the text after it. */
  lemma SignatureHtmlAround(a: string, b: string)
    ensures SignatureHtml(a + EscapedNewline + b) == SignatureHtml(a) + "<br>" + SignatureHtml(b)
  {
    ReplaceAround(a, b);
  }

  /** The signature never contains a backslash-n pair, equals the setting exactly
      when the setting had none, and turns each pair into `<br>`. */
  lemma SignatureHtmlProperties(setting: string)
    ensures NoEscapedNewline(SignatureHtml(setting))
    ensures SignatureHtml(setting) == setting <==> NoEscapedNewline(setting)
    ensures forall a, b :: setting == a + EscapedNewline + b ==>
      SignatureHtml(setting) == SignatureHtml(a) + "<br>" + SignatureHtml(b)
  {
    if setting != "" {
      ReplaceLength(setting);
      if NoEscapedNewline(setting) {
        ReplaceKeeps(setting);
      }
    }
    forall a, b | setting == a + EscapedNewline + b
      ensures SignatureHtml(setting) == SignatureHtml(a) + "<br>" + SignatureHtml(b)
    {
      SignatureHtmlAround(a, b);
    }
  }

  /** Two plain parts joined by one backslash-n pair become the parts joined by `<br>`. */
  lemma SignatureOfPlainParts(a: string, b: string)
    requires NoEscapedNewline(a) && NoEscapedNewline(b)
    ensures SignatureHtml(a + EscapedNewline + b) == a + "<br>" + b
  {
    SignatureHtmlAround(a, b);
    if a != "" {
      ReplaceKeeps(a);
    }
    if b != "" {
      ReplaceKeeps(b);
    }
  }

  lemma SignatureExample()
    ensures SignatureHtml("Jo\\nAcme") == "Jo<br>Acme"
  {
    var jo, acme := "Jo", "Acme";
    assert NoEscapedNewline(jo) && NoEscapedNewline(acme);
    SignatureOfPlainParts(jo, acme);
    var setting := jo + EscapedNewline + acme;
    assert setting == "Jo\\nAcme";
    assert SignatureHtml(setting) == "Jo<br>Acme";
  }
}
