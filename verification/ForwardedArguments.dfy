/** Splitting a forwarded argument list at its single commas. */
module ForwardedArguments {
  import opened Sequences

  /** `addArg`: an empty argument is dropped. */
  function Keep(word: string): seq<string> { if word == "" then [] else [word] }

  /** The arguments still to come, when `word` has been read of the current one. */
  function Rest(s: string, word: string): seq<string>
    decreases |s|
  {
    if s == "" then Keep(word)
    else if s[0] != ',' then Rest(s[1..], word + [s[0]])
    else if |s| > 1 && s[1] == ',' then Rest(s[2..], word + ",")
    else Keep(word) + Rest(s[1..], "")
  }

  /** A leading comma is taken literally. */
  function Arguments(args: string): seq<string> {
    if args != "" && args[0] == ',' then Rest(args[1..], ",") else Rest(args, "")
  }

  lemma RestOrdinary(args: string, it: nat, word: string)
    requires it < |args| && args[it] != ','
    ensures Rest(args[it..], word) == Rest(args[it + 1..], word + [args[it]])
  {
    assert args[it..][1..] == args[it + 1..];
  }

  lemma RestPair(args: string, it: nat, word: string)
    requires it + 1 < |args| && args[it] == args[it + 1] == ','
    ensures Rest(args[it..], word) == Rest(args[it + 2..], word + ",")
  {
    assert args[it..][2..] == args[it + 2..];
  }

  lemma RestSplit(args: string, it: nat, word: string)
    requires it < |args| && args[it] == ',' && (it + 1 < |args| ==> args[it + 1] != ',')
    ensures Rest(args[it..], word) == Keep(word) + Rest(args[it + 1..], "")
  {
    assert args[it..][1..] == args[it + 1..];
  }

  lemma RestStarts(args: string)
    ensures Arguments(args) == if args != "" && args[0] == ',' then Rest(args[1..], ",") else Rest(args[0..], "")
  {
    assert args[0..] == args;
  }

  lemma RestEnds(args: string, word: string)
    ensures Rest(args[|args|..], word) == Keep(word)
  {
  }

  method ParseForwardedArguments(args: string) returns (values: seq<string>)
    ensures values == Arguments(args)
  {
    values := [];
    var word, it := "", 0;
    RestStarts(args);
    if it < |args| && args[it] == ',' {
      word, it := ",", 1;
    }
    ghost var rest := Rest(args[it..], word);
    while it < |args|
      invariant 0 <= it <= |args|
      invariant rest == Rest(args[it..], word) && values + rest == Arguments(args)
      decreases |args| - it
    {
      if args[it] == ',' {
        if it + 1 < |args| && args[it + 1] == ',' {
          RestPair(args, it, word);
          word := word + ",";
          it := it + 1;
        } else {
          RestSplit(args, it, word);
          rest := Rest(args[it + 1..], "");
          Regroup(values, Keep(word), rest);
          values := values + Keep(word);
          word := "";
        }
      } else {
        RestOrdinary(args, it, word);
        word := word + [args[it]];
      }
      it := it + 1;
    }
    RestEnds(args, word);
    values := values + Keep(word);
  }

  // ------------------------------------------------------------------ writing a list

  /** Every comma doubled. */
  function Doubled(x: string): (d: string)
    ensures x != "" ==> d != "" && d[0] == x[0]
  {
    if x == "" then "" else (if x[0] == ',' then ",," else [x[0]]) + Doubled(x[1..])
  }

  function Joined(xs: seq<string>): string {
    if xs == [] then ""
    else if |xs| == 1 then Doubled(xs[0])
    else Doubled(xs[0]) + "," + Joined(xs[1..])
  }

  predicate IsPlain(x: string) { x != "" && x[0] != ',' }

  predicate AllCommas(x: string) { forall i :: 0 <= i < |x| ==> x[i] == ',' }

  predicate Recoverable(xs: seq<string>) {
    || (forall i :: 0 <= i < |xs| ==> IsPlain(xs[i]))
    || (|xs| == 1 && xs[0] != "" && AllCommas(xs[0]))
  }

  lemma {:induction false} ReadsDoubled(x: string, t: string, word: string)
    ensures Rest(Doubled(x) + t, word) == Rest(t, word + x)
    decreases |x|
  {
    var s := Doubled(x) + t;
    if x == "" {
      assert s == t && word + x == word;
    } else {
      var head := if x[0] == ',' then ",," else [x[0]];
      assert s == head + (Doubled(x[1..]) + t);
      assert s[|head|..] == Doubled(x[1..]) + t;
      assert word + [x[0]] + x[1..] == word + x;
      ReadsDoubled(x[1..], t, word + [x[0]]);
    }
  }

  lemma {:induction false} NoEmptyArguments(s: string, word: string)
    ensures forall i :: 0 <= i < |Rest(s, word)| ==> Rest(s, word)[i] != ""
    decreases |s|
  {
    if s == "" {
    } else if s[0] != ',' {
      NoEmptyArguments(s[1..], word + [s[0]]);
    } else if |s| > 1 && s[1] == ',' {
      NoEmptyArguments(s[2..], word + ",");
    } else {
      NoEmptyArguments(s[1..], "");
    }
  }

  /** What has been read of an argument stays at its front. */
  lemma {:induction false} KeepsWord(s: string, word: string)
    requires word != ""
    ensures Rest(s, word) != [] && |word| <= |Rest(s, word)[0]|
    decreases |s|
  {
    if s != "" {
      if s[0] != ',' {
        KeepsWord(s[1..], word + [s[0]]);
      } else if |s| > 1 && s[1] == ',' {
        KeepsWord(s[2..], word + ",");
      }
    }
  }

  /** A first argument is read off, up to the comma that ends it or starts a pair. */
  lemma ReadsFirst(x: string, e: string)
    requires x != ""
    ensures var r := Rest(Doubled(x) + ("," + e), "");
            if e != "" && e[0] == ',' then r != [] && |x| < |r[0]| else r == [x] + Rest(e, "")
  {
    ReadsDoubled(x, "," + e, "");
    assert "" + x == x && ("," + e)[1..] == e;
    if e != "" && e[0] == ',' {
      assert ("," + e)[2..] == e[1..];
      KeepsWord(e[1..], x + ",");
    }
  }

  /** Lists whose first argument starts with another character. */
  lemma {:induction false} PlainFirst(xs: seq<string>)
    requires xs == [] || IsPlain(xs[0])
    ensures Rest(Joined(xs), "") == xs <==> forall i :: 0 <= i < |xs| ==> IsPlain(xs[i])
    decreases |xs|
  {
    if |xs| == 1 {
      ReadsDoubled(xs[0], "", "");
      assert Joined(xs) == Doubled(xs[0]) + "" && "" + xs[0] == xs[0];
    } else if |xs| > 1 {
      var tail, e := xs[1..], Joined(xs[1..]);
      assert Joined(xs) == Doubled(xs[0]) + ("," + e);
      ReadsFirst(xs[0], e);
      NoEmptyArguments(Joined(xs), "");
      assert xs == [xs[0]] + tail;
      if tail[0] != "" {
        assert e[0] == tail[0][0];
        if tail[0][0] != ',' { PlainFirst(tail); }
      }
    }
  }

  lemma CommasFrom(x: string)
    requires x != "" && x[0] == ','
    ensures x == "," + x[1..] && (AllCommas(x) <==> AllCommas(x[1..]))
  {
  }

  /** The first argument is `x` exactly if `whole` holds, and then it is the only one. */
  predicate FirstIs(r: seq<string>, x: string, whole: bool) {
    r != [] && (r[0] == x <==> whole) && (whole ==> r == [x])
  }

  /** One comma out of step with the pairs: the first run of commas decides. */
  lemma {:induction false} OutOfStep(z: string, t: string, word: string)
    requires word != "" && (t == "" || t[0] == ',')
    ensures FirstIs(Rest("," + (Doubled(z) + t), word), word + z, AllCommas(z) && t == "")
    decreases |z|
  {
    var s := "," + (Doubled(z) + t);
    if z == "" {
      assert s == "," + t && word + z == word;
      if t != "" {
        assert s[2..] == t[1..];
        KeepsWord(t[1..], word + ",");
      }
    } else if z[0] == ',' {
      assert Doubled(z) == ",," + Doubled(z[1..]);
      assert s[2..] == "," + (Doubled(z[1..]) + t);
      assert word + "," + z[1..] == word + z;
      CommasFrom(z);
      OutOfStep(z[1..], t, word + ",");
    } else {
      assert s[1] == z[0];
      assert Rest(s, word) == [word] + Rest(s[1..], "");
    }
  }

  /** After the literal first comma, a doubled first argument is out of step. */
  lemma JoinedCommas(xs: seq<string>, t: string)
    requires xs != [] && xs[0] != "" && xs[0][0] == ',' && t == if |xs| == 1 then "" else "," + Joined(xs[1..])
    ensures Joined(xs) == ",," + (Doubled(xs[0][1..]) + t)
  {
    var d := Doubled(xs[0][1..]);
    assert Doubled(xs[0]) == ",," + d;
    Regroup(",,", d, t);
    if |xs| == 1 {
      assert ",," + d + "" == ",," + d;
    } else {
      Regroup(Doubled(xs[0]), ",", Joined(xs[1..]));
    }
  }

  lemma FirstDecides(xs: seq<string>, r: seq<string>, whole: bool)
    requires xs != [] && FirstIs(r, xs[0], whole) && (whole ==> |xs| == 1)
    ensures r == xs <==> whole
  {
  }

  lemma ArgumentsOfCommas(xs: seq<string>, t: string)
    requires xs != [] && xs[0] != "" && xs[0][0] == ',' && t == if |xs| == 1 then "" else "," + Joined(xs[1..])
    ensures Arguments(Joined(xs)) == Rest("," + (Doubled(xs[0][1..]) + t), ",")
  {
    JoinedCommas(xs, t);
    LeadingComma(Doubled(xs[0][1..]) + t);
  }

  lemma LeadingComma(s: string)
    ensures Arguments(",," + s) == Rest("," + s, ",")
  {
    assert (",," + s)[1..] == "," + s;
  }

  lemma CommaFirst(xs: seq<string>)
    requires xs != [] && xs[0] != "" && xs[0][0] == ','
    ensures Arguments(Joined(xs)) == xs <==> |xs| == 1 && AllCommas(xs[0])
  {
    var t := if |xs| == 1 then "" else "," + Joined(xs[1..]);
    ArgumentsOfCommas(xs, t);
    CommasFrom(xs[0]);
    OutOfStep(xs[0][1..], t, ",");
    FirstDecides(xs, Arguments(Joined(xs)), AllCommas(xs[0][1..]) && t == "");
  }

  /**
   * Doubling every comma and joining with commas is undone by the splitter for exactly
   * these lists: all arguments non-empty and none starting with a comma, or a single
   * argument that is nothing but commas.
   */
  lemma SplitUndoesJoin(xs: seq<string>)
    ensures Arguments(Joined(xs)) == xs <==> Recoverable(xs)
  {
    if xs == [] {
    } else if xs[0] == "" {
      var s := Joined(xs);
      if s != "" && s[0] == ',' { NoEmptyArguments(s[1..], ","); } else { NoEmptyArguments(s, ""); }
    } else if xs[0][0] == ',' {
      CommaFirst(xs);
    } else {
      PlainFirst(xs);
      assert Joined(xs)[0] == xs[0][0];
      assert Arguments(Joined(xs)) == Rest(Joined(xs), "");
    }
  }

  // ---------------------------------------------------------------- run by run

  function Commas(n: nat): string { seq(n, _ => ',') }

  /** Text without commas is read as it is. */
  lemma {:induction false} PlainRun(w: string, t: string, word: string)
    requires ',' !in w
    ensures Rest(w + t, word) == Rest(t, word + w)
    decreases |w|
  {
    if w == "" {
      assert w + t == t && word + w == word;
    } else {
      assert w[0] in w && (w + t)[1..] == w[1..] + t && word + [w[0]] + w[1..] == word + w;
      PlainRun(w[1..], t, word + [w[0]]);
    }
  }

  /** Of a run of commas each pair is read as one, and an odd one ends the argument, if there is one. */
  lemma {:induction false} CommaRun(n: nat, t: string, word: string)
    requires t == "" || t[0] != ','
    ensures var read := word + Commas(n / 2);
            Rest(Commas(n) + t, word) ==
            if n % 2 == 0 then Rest(t, read) else (if read == "" then [] else [read]) + Rest(t, "")
    decreases n
  {
    var s := Commas(n) + t;
    if n == 0 {
      assert s == t && word + Commas(0) == word;
    } else if n == 1 {
      assert s[1..] == t && word + Commas(0) == word;
    } else {
      assert s[2..] == Commas(n - 2) + t && word + "," + Commas(n / 2 - 1) == word + Commas(n / 2);
      CommaRun(n - 2, t, word + ",");
    }
  }

  /** Of a run that the list starts with, the first comma is read as it is. */
  lemma LeadingRun(n: nat, t: string)
    requires t == "" || t[0] != ','
    ensures Arguments(Commas(n) + t) == if n == 0 then Rest(t, "") else Rest(Commas(n - 1) + t, ",")
    ensures forall word :: Rest("", word) == if word == "" then [] else [word]
  {
    var s := Commas(n) + t;
    if n == 0 { assert s == t; } else { assert s[1..] == Commas(n - 1) + t; }
  }
}
