/** The `|`-delimited text that carries the strings detected on an ID card
    from the detection step to the text picker. The producer appends a `|`
    after every item; the consumer splits with the semantics of JavaScript's
    `String.prototype.split` on a one-character separator. */
module PipeText {

  const Separator: char := '|'

  /** No item may contain the separator for the encoding to be reversible. */
  predicate NoSeparator(items: seq<string>) {
    forall i :: 0 <= i < |items| ==> Separator !in items[i]
  }

  /** `s.split("|")`: the pieces between separators, always at least one,
      so the empty string splits into one empty piece. */
  function Split(s: string): (r: seq<string>)
    ensures |r| >= 1
    ensures NoSeparator(r)
    ensures s == "" ==> r == [""]
    decreases |s|
  {
    if s == [] then [""]
    else
      var rest := Split(s[1..]);
      if s[0] == Separator then [""] + rest
      else [[s[0]] + rest[0]] + rest[1..]
  }

  /** The reference inverse of Split: the pieces joined with one separator
      between neighbours (`pieces.join("|")`). */
  function Intercalate(pieces: seq<string>): string
    requires |pieces| >= 1
    decreases |pieces|
  {
    if |pieces| == 1 then pieces[0]
    else pieces[0] + [Separator] + Intercalate(pieces[1..])
  }

  /** What the detection loop builds: every item followed by a separator. */
  function Terminated(items: seq<string>): string
    decreases |items|
  {
    if items == [] then "" else items[0] + [Separator] + Terminated(items[1..])
  }

  /** Splitting loses nothing: rejoining the pieces gives the input back. */
  lemma {:induction false} IntercalateSplit(s: string)
    ensures Intercalate(Split(s)) == s
    decreases |s|
  {
    if s != [] {
      var rest := Split(s[1..]);
      IntercalateSplit(s[1..]);
      if s[0] == Separator {
        assert Split(s) == [""] + rest;
        assert ([""] + rest)[1..] == rest;
        assert s == [s[0]] + s[1..];
      } else if |rest| == 1 {
        assert Split(s) == [[s[0]] + rest[0]];
        assert s == [s[0]] + s[1..];
      } else {
        var r := Split(s);
        assert r == [[s[0]] + rest[0]] + rest[1..];
        assert r[1..] == rest[1..];
        assert Intercalate(rest) == rest[0] + [Separator] + Intercalate(rest[1..]);
        assert s == [s[0]] + s[1..];
      }
    }
  }

  /** A separator-free prefix glues onto the first piece of what follows. */
  lemma {:induction false} SplitAppend(t: string, u: string)
    requires Separator !in t
    ensures Split(t + u) == [t + Split(u)[0]] + Split(u)[1..]
    decreases |t|
  {
    if t != [] {
      assert (t + u)[1..] == t[1..] + u;
      assert (t + u)[0] == t[0];
      SplitAppend(t[1..], u);
      assert [t[0]] + (t[1..] + Split(u)[0]) == t + Split(u)[0];
    } else {
      var r := Split(u);
      assert t + u == u;
      assert t + r[0] == r[0];
      assert r == [r[0]] + r[1..];
    }
  }

  /** Joining separator-free pieces and splitting again gives the pieces. */
  lemma {:induction false} SplitIntercalate(pieces: seq<string>)
    requires |pieces| >= 1 && NoSeparator(pieces)
    ensures Split(Intercalate(pieces)) == pieces
    decreases |pieces|
  {
    assert Separator !in pieces[0];
    if |pieces| == 1 {
      SplitAppend(pieces[0], "");
      assert pieces[0] + "" == pieces[0];
    } else {
      var tail := Intercalate(pieces[1..]);
      var rest := [Separator] + tail;
      assert NoSeparator(pieces[1..]) by {
        forall i | 0 <= i < |pieces[1..]| ensures Separator !in pieces[1..][i] {
          assert pieces[1..][i] == pieces[i + 1];
        }
      }
      SplitIntercalate(pieces[1..]);
      assert rest[1..] == tail;
      assert Split(rest) == [""] + pieces[1..];
      SplitAppend(pieces[0], rest);
      assert Intercalate(pieces) == pieces[0] + rest;
      assert pieces[0] + "" == pieces[0];
      assert pieces == [pieces[0]] + pieces[1..];
    }
  }

  /** The loop's accumulation step: one more item adds itself and a separator
      at the end. */
  lemma {:induction false} TerminatedSnoc(items: seq<string>, x: string)
    ensures Terminated(items + [x]) == Terminated(items) + x + [Separator]
    decreases |items|
  {
    if items == [] {
      assert [x][1..] == [];
    } else {
      assert (items + [x])[1..] == items[1..] + [x];
      TerminatedSnoc(items[1..], x);
    }
  }

  /** A trailing separator is a join with one extra, empty, last piece. */
  lemma {:induction false} TerminatedIsIntercalate(items: seq<string>)
    ensures Terminated(items) == Intercalate(items + [""])
    decreases |items|
  {
    if items != [] {
      assert (items + [""])[1..] == items[1..] + [""];
      TerminatedIsIntercalate(items[1..]);
    }
  }

  /** The round trip the picker sees: the detected items followed by one
      empty string, provided no item contains the separator. */
  lemma SplitTerminated(items: seq<string>)
    requires NoSeparator(items)
    ensures Split(Terminated(items)) == items + [""]
  {
    TerminatedIsIntercalate(items);
    assert NoSeparator(items + [""]) by {
      forall i | 0 <= i < |items + [""]| ensures Separator !in (items + [""])[i] {
        if i < |items| { assert (items + [""])[i] == items[i]; }
      }
    }
    SplitIntercalate(items + [""]);
  }

  /** Without the proviso the round trip breaks: an item holding a separator
      comes back as two pieces. */
  lemma SeparatorInItemSplitsIt()
    ensures Split(Terminated(["a|b"])) == ["a", "b", ""]
  {
    assert Terminated(["a|b"]) == "a|b|";
    assert "a|b|"[1..] == "|b|";
    assert Split("") == [""];
    assert "|"[1..] == "";
    assert Split("|") == ["", ""];
    assert "b|"[1..] == "|" && "b|"[0] == 'b';
    assert ['b'] + "" == "b";
    assert Split("b|") == ["b", ""];
    assert "|b|"[1..] == "b|" && "|b|"[0] == '|';
    assert "a|b|"[0] == 'a' && ['a'] + "" == "a";
    assert Split("|b|") == ["", "b", ""];
  }
}
