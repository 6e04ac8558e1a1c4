/**
 * The name normaliser, `MediafireDownloader.normalize_file_or_folder_name`.
 *
 * Python's `str.isalnum` is Unicode-aware; the model takes it as a parameter
 * `alnum: char -> bool`, so every property below holds whatever that
 * predicate is. `MatchesAsciiIsAlnum` states the one fact about it that the
 * concrete example needs: on ASCII it agrees with `[a-zA-Z0-9]`.
 */
module Names {
  import opened Common

  /** The characters kept besides alphanumerics: membership in `"-_. "`. */
  predicate IsExtra(c: char)
  {
    c == '-' || c == '_' || c == '.' || c == ' '
  }

  /** The character every other character is replaced by. */
  const Replacement: char := '-'

  /** A character the normaliser keeps. */
  predicate Allowed(alnum: char -> bool, c: char)
  {
    alnum(c) || IsExtra(c)
  }

  /** One position of the comprehension. */
  function NormalizeChar(alnum: char -> bool, c: char): (r: char)
    ensures Allowed(alnum, r)
    ensures r == c <==> Allowed(alnum, c)
  {
    if Allowed(alnum, c) then c else Replacement
  }

  /** The whole comprehension: `"".join(char if ... else "-" for char in name)`. */
  function Normalize(alnum: char -> bool, name: string): (r: string)
    ensures |r| == |name|
    ensures forall i :: 0 <= i < |name| ==> r[i] == NormalizeChar(alnum, name[i])
  {
    if name == [] then [] else [NormalizeChar(alnum, name[0])] + Normalize(alnum, name[1..])
  }

  /** Every output character is alphanumeric or one of `-_. `. */
  lemma OutputAllowed(alnum: char -> bool, name: string)
    ensures forall i :: 0 <= i < |name| ==> Allowed(alnum, Normalize(alnum, name)[i])
  {
  }

  /** Allowed characters pass through unchanged; every other one becomes `-`. */
  lemma PositionwiseMap(alnum: char -> bool, name: string, i: nat)
    requires i < |name|
    ensures Allowed(alnum, name[i]) ==> Normalize(alnum, name)[i] == name[i]
    ensures !Allowed(alnum, name[i]) ==> Normalize(alnum, name)[i] == '-'
  {
  }

  /** A name is left as it is exactly when every character of it is allowed. */
  lemma {:induction false} FixedPoints(alnum: char -> bool, name: string)
    ensures Normalize(alnum, name) == name <==> forall c :: c in name ==> Allowed(alnum, c)
  {
    var r := Normalize(alnum, name);
    if r == name {
      forall c | c in name ensures Allowed(alnum, c) {
        var i :| 0 <= i < |name| && name[i] == c;
        assert r[i] == NormalizeChar(alnum, name[i]);
      }
    }
    if forall c :: c in name ==> Allowed(alnum, c) {
      forall i | 0 <= i < |name| ensures r[i] == name[i] {
        assert name[i] in name;
      }
    }
  }

  /** Normalising twice is normalising once. */
  lemma Idempotent(alnum: char -> bool, name: string)
    ensures Normalize(alnum, Normalize(alnum, name)) == Normalize(alnum, name)
  {
    var r := Normalize(alnum, name);
    forall c | c in r ensures Allowed(alnum, c) {
      var i :| 0 <= i < |r| && r[i] == c;
    }
    FixedPoints(alnum, r);
  }

  /** Output position `i` depends only on input character `i`. */
  lemma Local(alnum: char -> bool, a: string, b: string, i: nat)
    requires |a| == |b| && i < |a| && a[i] == b[i]
    ensures Normalize(alnum, a)[i] == Normalize(alnum, b)[i]
  {
  }

  /** `alnum` behaves as Python's `str.isalnum` does on ASCII characters. */
  predicate MatchesAsciiIsAlnum(alnum: char -> bool)
  {
    forall c: char :: c < 128 as char ==> (alnum(c) <==> IsAsciiAlnum(c))
  }

  /** Normalising a concatenation normalises each part. */
  lemma Append(alnum: char -> bool, a: string, b: string)
    ensures Normalize(alnum, a + b) == Normalize(alnum, a) + Normalize(alnum, b)
  {
    var r, l := Normalize(alnum, a + b), Normalize(alnum, a) + Normalize(alnum, b);
    forall i | 0 <= i < |a + b| ensures r[i] == l[i] {
      if i < |a| { assert (a + b)[i] == a[i]; } else { assert (a + b)[i] == b[i - |a|]; }
    }
  }

  /** On an ASCII character the normaliser keeps exactly `[a-zA-Z0-9-_. ]`. */
  lemma AsciiChar(alnum: char -> bool, c: char)
    requires MatchesAsciiIsAlnum(alnum) && c < 128 as char
    ensures NormalizeChar(alnum, c) == if IsAsciiAlnum(c) || IsExtra(c) then c else '-'
  {
  }

  /** An ASCII name made of allowed characters only is left as it is. */
  lemma AsciiKept(alnum: char -> bool, w: string)
    requires MatchesAsciiIsAlnum(alnum)
    requires forall c :: c in w ==> c < 128 as char && (IsAsciiAlnum(c) || IsExtra(c))
    ensures Normalize(alnum, w) == w
  {
    FixedPoints(alnum, w);
  }

  /** How the example's input and output split around the replaced characters. */
  lemma ExamplePieces()
    ensures "weird:name*.pdf" == "weird" + (":" + ("name" + ("*" + ".pdf")))
    ensures "weird-name-.pdf" == "weird" + ("-" + ("name" + ("-" + ".pdf")))
  {
  }

  /** An example: `weird:name*.pdf` is stored as `weird-name-.pdf`. */
  lemma WeirdNameExample(alnum: char -> bool)
    requires MatchesAsciiIsAlnum(alnum)
    ensures Normalize(alnum, "weird:name*.pdf") == "weird-name-.pdf"
  {
    var w, n, p := "weird", "name", ".pdf";
    AsciiKept(alnum, w);
    AsciiChar(alnum, ':');
    ExamplePieces();
    ExampleTail(alnum);
    calc {
      Normalize(alnum, "weird:name*.pdf");
      Normalize(alnum, w + (":" + (n + ("*" + p))));
      { Append(alnum, w, ":" + (n + ("*" + p))); }
      w + Normalize(alnum, ":" + (n + ("*" + p)));
      { Append(alnum, ":", n + ("*" + p)); }
      w + ("-" + Normalize(alnum, n + ("*" + p)));
      w + ("-" + (n + ("-" + p)));
      "weird-name-.pdf";
    }
  }

  lemma ExampleTail(alnum: char -> bool)
    requires MatchesAsciiIsAlnum(alnum)
    ensures Normalize(alnum, "name" + ("*" + ".pdf")) == "name" + ("-" + ".pdf")
  {
    var n, p := "name", ".pdf";
    AsciiKept(alnum, n);
    AsciiKept(alnum, p);
    AsciiChar(alnum, '*');
    calc {
      Normalize(alnum, n + ("*" + p));
      { Append(alnum, n, "*" + p); }
      n + Normalize(alnum, "*" + p);
      { Append(alnum, "*", p); }
      n + ("-" + p);
    }
  }
}
