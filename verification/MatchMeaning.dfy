/** What the vulnerability matcher looks at, said of the records as they are written: the name between its blanks,
    the first number of a CWE field, the maximal runs of letters and digits, and the thresholds in whole numbers. */
module MatchMeaning {
  import opened FindingScores
  import opened VulnerabilityMatching

  // ----- the blanks around a name

  predicate AllBlank(u: Text, s: string) {
    forall c :: c in s ==> u.blank(c)
  }

  /** The name starts and ends with no blank. */
  predicate Trim(u: Text, s: string) {
    s != "" ==> !u.blank(s[0]) && !u.blank(s[|s| - 1])
  }

  lemma {:induction false} StripExactly(u: Text, a: string, name: string, b: string)
    requires AllBlank(u, a) && AllBlank(u, b) && Trim(u, name)
    ensures Strip(u, a + name + b) == name
    decreases |a| + |b|
  {
    var s := a + name + b;
    if name == "" {
      assert s == a + b;
      StripFront(u, a + b);
    } else if a != "" {
      assert s[1..] == a[1..] + name + b;
      assert a[0] in a;
      StripExactly(u, a[1..], name, b);
    } else if b != "" {
      var n := |b| - 1;
      assert s[..|s| - 1] == a + name + b[..n];
      assert b[n] in b;
      assert s[0] == name[0];
      StripExactly(u, a, name, b[..n]);
    } else {
      assert s == name;
    }
  }

  lemma {:induction false} StripFront(u: Text, s: string)
    requires AllBlank(u, s)
    ensures Strip(u, s) == ""
  {
    if s != "" {
      assert s[0] in s;
      StripFront(u, s[1..]);
    }
  }

  /** A file name is compared without the blanks around it, in lower case and with every backslash a slash. */
  lemma CleanedExactly(u: Text, a: string, name: string, b: string, i: nat)
    requires AllBlank(u, a) && AllBlank(u, b) && Trim(u, name)
    ensures var cleaned, lower := Cleaned(u, a + name + b), u.lower(name);
            |cleaned| == |lower|
            && (i < |lower| ==> cleaned[i] == if lower[i] == '\\' then '/' else lower[i])
  {
    hide Strip;
    StripExactly(u, a, name, b);
  }

  // ----- the number of a weakness

  predicate AllDigits(u: Text, s: string) {
    forall c :: c in s ==> u.digit(c)
  }

  predicate NoDigits(u: Text, s: string) {
    forall c :: c in s ==> !u.digit(c)
  }

  lemma {:induction false} DigitRunExactly(u: Text, digits: string, rest: string)
    requires AllDigits(u, digits) && (rest != "" ==> !u.digit(rest[0]))
    ensures DigitRun(u, digits + rest) == digits
  {
    var s := digits + rest;
    if digits == "" {
      assert s == rest;
    } else {
      assert digits[0] in digits && s[1..] == digits[1..] + rest;
      DigitRunExactly(u, digits[1..], rest);
    }
  }

  lemma {:induction false} FirstDigitsExactly(u: Text, before: string, digits: string, rest: string)
    requires NoDigits(u, before) && AllDigits(u, digits) && (rest != "" ==> !u.digit(rest[0]))
    requires digits == "" ==> rest == ""
    ensures FirstDigits(u, before + digits + rest) == digits
  {
    var s := before + digits + rest;
    if before == "" {
      assert s == digits + rest;
      DigitRunExactly(u, digits, rest);
      if digits != "" {
        assert digits[0] in digits;
      }
    } else {
      assert before[0] in before && s[1..] == before[1..] + digits + rest;
      FirstDigitsExactly(u, before[1..], digits, rest);
    }
  }

  lemma {:induction false} ZerosGo(zeros: string, rest: string)
    requires (forall c :: c in zeros ==> c == '0') && (rest != "" ==> rest[0] != '0')
    ensures WithoutZeros(zeros + rest) == rest
  {
    var s := zeros + rest;
    if zeros == "" {
      assert s == rest;
    } else {
      assert zeros[0] in zeros && s[1..] == zeros[1..] + rest;
      assert forall c :: c in zeros[1..] ==> c in zeros;
      ZerosGo(zeros[1..], rest);
    }
  }

  /** The weakness a CWE field names is its first run of digits without leading zeros, a run of zeros being 0;
      a field without a digit names none. */
  lemma CweNumberExactly(u: Text, before: string, zeros: string, number: string, rest: string)
    requires NoDigits(u, before) && AllDigits(u, zeros + number) && (rest != "" ==> !u.digit(rest[0]))
    requires (forall c :: c in zeros ==> c == '0') && (number != "" ==> number[0] != '0')
    requires zeros + number == "" ==> rest == ""
    ensures CweNumber(u, before + (zeros + number) + rest)
            == if zeros + number == "" then "" else if number == "" then "0" else number
  {
    FirstDigitsExactly(u, before, zeros + number, rest);
    ZerosGo(zeros, number);
  }

  /** Every field is of that form. */
  lemma {:induction false} CweFieldSplits(u: Text, field: string)
    returns (before: string, digits: string, rest: string)
    ensures field == before + digits + rest
    ensures NoDigits(u, before) && AllDigits(u, digits) && (rest != "" ==> !u.digit(rest[0]))
    ensures digits == "" ==> rest == ""
  {
    if field == "" {
      before, digits, rest := "", "", "";
    } else {
      before, digits, rest := CweFieldSplits(u, field[1..]);
      assert field == [field[0]] + field[1..];
      if !u.digit(field[0]) {
        before := [field[0]] + before;
      } else if before == "" {
        digits := [field[0]] + digits;
      } else {
        rest := before + digits + rest;
        assert before[0] in before && rest[0] == before[0];
        before, digits := "", [field[0]];
      }
    }
  }

  /** A record names the weaknesses of its field and of its list, each by its number. */
  lemma CwesExactly(u: Text, v: Vulnerability, n: string)
    ensures n in CwesOf(u, v)
            <==> n != "" && (n == CweNumber(u, v.cwe) || exists c :: c in v.allCwes && n == CweNumber(u, c))
  {
    hide CweNumber;
  }

  // ----- the words of a text

  /** The characters from `i` to `j` are lower-case letters and digits, and on neither side is another one. */
  predicate MaximalRun(s: string, i: int, j: int) {
    && 0 <= i < j <= |s|
    && (forall k :: i <= k < j ==> LetterOrDigit(s[k]))
    && (i > 0 ==> !LetterOrDigit(s[i - 1]))
    && (j < |s| ==> !LetterOrDigit(s[j]))
  }

  /** A lower-case letter or a digit by its code point. */
  predicate LetterOrDigit(c: char) {
    97 <= c as int <= 122 || 48 <= c as int <= 57
  }

  lemma CharacterExactly(c: char)
    ensures WordCharacter(c) <==> LetterOrDigit(c)
  {
  }

  lemma {:induction false} RunExactly(s: string)
    ensures forall k :: 0 <= k < |WordRun(s)| ==> k < |s| && LetterOrDigit(s[k]) && WordRun(s)[k] == s[k]
    ensures |WordRun(s)| <= |s|
    ensures |WordRun(s)| < |s| ==> !LetterOrDigit(s[|WordRun(s)|])
  {
    hide LetterOrDigit;
    if s != "" {
      CharacterExactly(s[0]);
      RunExactly(s[1..]);
      if WordCharacter(s[0]) {
        var n := |WordRun(s[1..])|;
        assert WordRun(s) == [s[0]] + WordRun(s[1..]);
        forall k | 0 <= k < n + 1 ensures k < |s| && LetterOrDigit(s[k]) && WordRun(s)[k] == s[k] {
          assert k > 0 ==> s[k] == s[1..][k - 1];
        }
        assert n + 1 < |s| ==> s[n + 1] == s[1..][n];
      } else {
        assert WordRun(s) == "";
      }
    } else {
      assert WordRun(s) == "";
    }
  }

  /** The runs that start behind a place are the runs of the rest of the text. */
  lemma RunsBehind(s: string, n: nat, i: int, j: int)
    requires n <= |s| && n <= i
    requires i > n || n == 0 || !LetterOrDigit(s[n - 1])
    ensures MaximalRun(s, i, j) <==> j >= n && MaximalRun(s[n..], i - n, j - n)
    ensures MaximalRun(s, i, j) ==> s[i..j] == s[n..][i - n..j - n]
  {
    hide LetterOrDigit;
    if j >= n && MaximalRun(s[n..], i - n, j - n) {
      forall k | i <= k < j ensures LetterOrDigit(s[k]) {
        assert s[n..][k - n] == s[k];
      }
    }
  }

  lemma FirstRun(s: string, i: int, j: int)
    requires s != "" && WordCharacter(s[0]) && 0 <= i < |WordRun(s)|
    ensures MaximalRun(s, i, j) <==> i == 0 && j == |WordRun(s)|
    ensures |WordRun(s)| <= |s| && s[0..|WordRun(s)|] == WordRun(s)
  {
    hide LetterOrDigit;
    RunExactly(s);
    var n := |WordRun(s)|;
  }

  lemma NoRunAt(s: string, i: nat, j: int)
    requires i < |s| ==> !LetterOrDigit(s[i])
    ensures !MaximalRun(s, i, j)
  {
  }

  /** The words of a text are its maximal runs of lower-case letters and digits, and nothing else. */
  lemma WordsExactly(s: string, w: string)
    ensures w in Words(s) <==> exists i, j :: MaximalRun(s, i, j) && s[i..j] == w
  {
    hide Words, LetterOrDigit;
    if w in Words(s) {
      var i, j := WordIsRun(s, w);
    }
    forall i, j | MaximalRun(s, i, j) && s[i..j] == w ensures w in Words(s) {
      RunIsWord(s, i, j);
    }
  }

  lemma RunInside(s: string, i: int, j: int)
    requires MaximalRun(s, i, j)
    ensures 0 <= i < j <= |s|
  {
  }

  lemma WordsFirst(s: string)
    ensures s == "" ==> Words(s) == {}
    ensures s != "" && WordCharacter(s[0]) ==>
              0 < |WordRun(s)| <= |s| && Words(s) == {WordRun(s)} + Words(s[|WordRun(s)|..])
    ensures s != "" && !WordCharacter(s[0]) ==> Words(s) == Words(s[1..])
  {
    WordRunFits(s);
    if s != "" {
      WordRunFits(s[1..]);
    }
  }

  lemma {:induction false} WordIsRun(s: string, w: string) returns (i: int, j: int)
    requires w in Words(s)
    ensures MaximalRun(s, i, j) && s[i..j] == w
    decreases |s|
  {
    hide LetterOrDigit, MaximalRun, WordCharacter, Words, WordRun;
    WordsFirst(s);
    CharacterExactly(s[0]);
    RunExactly(s);
    var n := if WordCharacter(s[0]) then |WordRun(s)| else 1;
    if WordCharacter(s[0]) && w == WordRun(s) {
      i, j := 0, n;
      FirstRun(s, i, j);
    } else {
      i, j := WordIsRun(s[n..], w);
      RunInside(s[n..], i, j);
      if WordCharacter(s[0]) {
        NoRunAt(s[n..], 0, j);
      }
      RunsBehind(s, n, i + n, j + n);
      i, j := i + n, j + n;
    }
  }

  lemma {:induction false} RunIsWord(s: string, i: int, j: int)
    requires MaximalRun(s, i, j)
    ensures 0 <= i < j <= |s| && s[i..j] in Words(s)
    decreases |s|
  {
    hide LetterOrDigit, MaximalRun, WordCharacter, Words, WordRun;
    RunInside(s, i, j);
    WordsFirst(s);
    CharacterExactly(s[0]);
    RunExactly(s);
    var n := if WordCharacter(s[0]) then |WordRun(s)| else 1;
    if i < n && WordCharacter(s[0]) {
      FirstRun(s, i, j);
    } else {
      if i == 0 {
        NoRunAt(s, i, j);
      }
      if i == n && WordCharacter(s[0]) {
        NoRunAt(s, i, j);
      }
      RunsBehind(s, n, i, j);
      RunIsWord(s[n..], i - n, j - n);
    }
  }

  // ----- the whole matcher

  lemma OverlapExactly(v: set<string>, w: set<string>)
    ensures Overlap(v, w) >= 0.34 <==> v != {} && w != {} && 100 * |v * w| >= 34 * |v + w|
  {
    if v != {} && w != {} {
      var x :| x in v;
      assert x in v + w;
      var n, d := |v * w|, |v + w|;
      assert d > 0;
      QuotientAtLeast(n, d);
    }
  }

  lemma QuotientAtLeast(n: nat, d: nat)
    requires d > 0
    ensures n as real / d as real >= 0.34 <==> 100 * n >= 34 * d
  {
    var q := n as real / d as real;
    assert q * d as real == n as real;
    assert (q - 0.34) * d as real == n as real - 0.34 * d as real;
    FactorSign(q - 0.34, d as real);
  }

  /** The words of a record are those of its title and of its description, in lower case. */
  lemma WordsOfExactly(u: Text, v: Vulnerability, w: string)
    ensures w in WordsOf(u, v)
            <==> (exists i, j :: MaximalRun(u.lower(v.title), i, j) && u.lower(v.title)[i..j] == w)
                 || exists i, j :: MaximalRun(u.lower(v.description), i, j) && u.lower(v.description)[i..j] == w
  {
    hide Words, MaximalRun;
    WordsExactly(u.lower(v.title), w);
    WordsExactly(u.lower(v.description), w);
  }

  /** Two records match exactly when their files do, they share a weakness or a third of their words and a bit
      more, 34 in 100, and their lines, where both are numbers, are at most ten apart. */
  lemma MatchesExactly(u: Text, a: Vulnerability, b: Vulnerability)
    ensures var v, w := WordsOf(u, a), WordsOf(u, b);
            Matches(u, a, b)
            <==> && FileOk(NormFile(u, a.file), NormFile(u, b.file))
                 && ((exists n :: n in CwesOf(u, a) && n in CwesOf(u, b))
                     || (v != {} && w != {} && 100 * |v * w| >= 34 * |v + w|))
                 && (a.line.At? && b.line.At? ==> a.line.number <= b.line.number + 10
                                                  && b.line.number <= a.line.number + 10)
  {
    hide FileOk, NormFile, CwesOf, WordsOf;
    var x, y := CwesOf(u, a), CwesOf(u, b);
    assert x * y != {} <==> exists n :: n in x && n in y by {
      if x * y != {} {
        var n :| n in x * y;
      }
      if n :| n in x && n in y {
        assert n in x * y;
      }
    }
    OverlapExactly(WordsOf(u, a), WordsOf(u, b));
  }
}
