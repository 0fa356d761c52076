/**
 * The solver's configuration lines are made of fields separated by two spaces.
 * Split is Python's `line.split('  ')` (leftmost, non-overlapping occurrences of
 * the separator) and Join is `'  '.join(fields)`; a line keeps its trailing
 * newline, which therefore belongs to its last field.
 */
module Fields {

  const Sep: string := "  "

  /** `line.split('  ')`: never empty; the first occurrence of the separator ends a field. */
  function Split(s: string): (r: seq<string>)
    ensures |r| >= 1
    decreases |s|
  {
    if |s| < 2 then [s]
    else if s[0] == ' ' && s[1] == ' ' then [""] + Split(s[2..])
    else
      var rest := Split(s[1..]);
      [[s[0]] + rest[0]] + rest[1..]
  }

  /** `'  '.join(fields)`. */
  function Join(fs: seq<string>): string
  {
    if |fs| == 0 then ""
    else if |fs| == 1 then fs[0]
    else fs[0] + Sep + Join(fs[1..])
  }

  /** A field holds no separator. */
  predicate NoSep(f: string)
  {
    forall i :: 0 <= i < |f| - 1 ==> !(f[i] == ' ' && f[i + 1] == ' ')
  }

  predicate EndsInSpace(f: string)
  {
    |f| > 0 && f[|f| - 1] == ' '
  }

  /**
   * The fields a split can produce: none holds the separator, and no field but
   * the last ends in a space (else the separator would have been found earlier).
   */
  predicate Clean(fs: seq<string>)
  {
    && (forall i :: 0 <= i < |fs| ==> NoSep(fs[i]))
    && (forall i :: 0 <= i < |fs| - 1 ==> !EndsInSpace(fs[i]))
  }

  lemma {:induction false} JoinCons(f: string, fs: seq<string>)
    requires |fs| >= 1
    ensures Join([f] + fs) == f + Sep + Join(fs)
  {
    assert ([f] + fs)[1..] == fs;
  }

  lemma {:induction false} JoinSnoc(fs: seq<string>, f: string)
    requires |fs| >= 1
    ensures Join(fs + [f]) == Join(fs) + Sep + f
    decreases |fs|
  {
    if |fs| == 1 {
      assert (fs + [f])[1..] == [f];
    } else {
      assert (fs + [f])[1..] == fs[1..] + [f];
      JoinSnoc(fs[1..], f);
    }
  }

  /** Re-joining the fields of a line gives the line back. */
  lemma {:induction false} JoinSplit(s: string)
    ensures Join(Split(s)) == s
    decreases |s|
  {
    if |s| < 2 {
    } else if s[0] == ' ' && s[1] == ' ' {
      assert Split(s) == [""] + Split(s[2..]);
      JoinSplit(s[2..]);
      JoinCons("", Split(s[2..]));
      assert s == Sep + s[2..];
    } else {
      var rest := Split(s[1..]);
      assert Split(s) == [[s[0]] + rest[0]] + rest[1..];
      JoinSplit(s[1..]);
      JoinExtendFirst(s[0], rest);
      assert s == [s[0]] + s[1..];
    }
  }

  /** Prefixing the first field with a character prefixes the joined line with it. */
  lemma {:induction false} JoinExtendFirst(c: char, fs: seq<string>)
    requires |fs| >= 1
    ensures Join([[c] + fs[0]] + fs[1..]) == [c] + Join(fs)
  {
    var r := [[c] + fs[0]] + fs[1..];
    if |fs| > 1 {
      assert r[1..] == fs[1..];
      var tail := Join(fs[1..]);
      assert Join(r) == ([c] + fs[0]) + Sep + tail;
      assert Join(fs) == fs[0] + Sep + tail;
      assert ([c] + fs[0]) + Sep + tail == [c] + (fs[0] + Sep + tail);
    } else {
      assert r == [[c] + fs[0]];
    }
  }

  /** A field without the separator is split into itself. */
  lemma {:induction false} SplitNoSep(f: string)
    requires NoSep(f)
    ensures Split(f) == [f]
    decreases |f|
  {
    if |f| >= 2 {
      assert !(f[0] == ' ' && f[1] == ' ');
      assert NoSep(f[1..]) by {
        forall i | 0 <= i < |f[1..]| - 1 ensures !(f[1..][i] == ' ' && f[1..][i + 1] == ' ') {
          assert f[1..][i] == f[i + 1] && f[1..][i + 1] == f[i + 2];
        }
      }
      SplitNoSep(f[1..]);
      assert f == [f[0]] + f[1..];
    }
  }

  /** A clean field followed by the separator ends the first field there. */
  lemma {:induction false} SplitAfterField(a: string, t: string)
    requires NoSep(a) && !EndsInSpace(a)
    ensures Split(a + Sep + t) == [a] + Split(t)
    decreases |a|
  {
    var s := a + Sep + t;
    if |a| == 0 {
      assert s == Sep + t && s[2..] == t;
    } else {
      assert s[0] == a[0];
      if |a| == 1 {
        assert s[1] == ' ';
        assert a[0] != ' ';
      } else {
        assert s[1] == a[1];
        assert !(a[0] == ' ' && a[1] == ' ');
      }
      var a' := a[1..];
      assert NoSep(a') by {
        forall i | 0 <= i < |a'| - 1 ensures !(a'[i] == ' ' && a'[i + 1] == ' ') {
          assert a'[i] == a[i + 1] && a'[i + 1] == a[i + 2];
        }
      }
      assert !EndsInSpace(a') by {
        if |a'| > 0 { assert a'[|a'| - 1] == a[|a| - 1]; }
      }
      assert s[1..] == a' + Sep + t;
      SplitAfterField(a', t);
      assert [s[0]] + a' == a;
    }
  }

  /** Splitting the join of clean fields gives the fields back. */
  lemma {:induction false} SplitJoin(fs: seq<string>)
    requires |fs| >= 1 && Clean(fs)
    ensures Split(Join(fs)) == fs
    decreases |fs|
  {
    if |fs| == 1 {
      SplitNoSep(fs[0]);
    } else {
      assert Clean(fs[1..]) by {
        forall i | 0 <= i < |fs[1..]| ensures NoSep(fs[1..][i]) { assert fs[1..][i] == fs[i + 1]; }
        forall i | 0 <= i < |fs[1..]| - 1 ensures !EndsInSpace(fs[1..][i]) { assert fs[1..][i] == fs[i + 1]; }
      }
      SplitJoin(fs[1..]);
      assert NoSep(fs[0]) && !EndsInSpace(fs[0]);
      SplitAfterField(fs[0], Join(fs[1..]));
      assert fs == [fs[0]] + fs[1..];
    }
  }

  /** Every split yields clean fields. */
  lemma {:induction false} SplitIsClean(s: string)
    ensures Clean(Split(s))
    decreases |s|
  {
    if |s| < 2 {
      assert NoSep(s);
    } else if s[0] == ' ' && s[1] == ' ' {
      SplitIsClean(s[2..]);
      var r := Split(s);
      assert r == [""] + Split(s[2..]);
      forall i | 0 <= i < |r| ensures NoSep(r[i]) {
        if i > 0 { assert r[i] == Split(s[2..])[i - 1]; }
      }
      forall i | 0 <= i < |r| - 1 ensures !EndsInSpace(r[i]) {
        if i > 0 { assert r[i] == Split(s[2..])[i - 1]; }
      }
    } else {
      SplitIsClean(s[1..]);
      SplitConsIsClean(s);
    }
  }

  /** A line that does not start with the separator: its first character joins the first field of the rest. */
  lemma SplitConsIsClean(s: string)
    requires |s| >= 2 && !(s[0] == ' ' && s[1] == ' ')
    requires Clean(Split(s[1..]))
    ensures Clean(Split(s))
  {
    var rest := Split(s[1..]);
    var head := [s[0]] + rest[0];
    var r := Split(s);
    assert r == [head] + rest[1..];
    assert NoSep(head) by {
      forall i | 0 <= i < |head| - 1 ensures !(head[i] == ' ' && head[i + 1] == ' ') {
        if i == 0 {
          assert head[1] == rest[0][0] == s[1] by { SplitFirstFieldStarts(s[1..]); }
        } else {
          assert head[i] == rest[0][i - 1] && head[i + 1] == rest[0][i];
        }
      }
    }
    assert |rest| > 1 ==> !EndsInSpace(head) by {
      if |rest| > 1 {
        if |rest[0]| == 0 {
          SplitEmptyFirstField(s[1..]);
          assert s[1] == ' ' && s[2] == ' ';
          assert s[0] != ' ';
        } else {
          assert head[|head| - 1] == rest[0][|rest[0]| - 1];
        }
      }
    }
    forall i | 0 <= i < |r| ensures NoSep(r[i]) {
      if i > 0 { assert r[i] == rest[i]; }
    }
    forall i | 0 <= i < |r| - 1 ensures !EndsInSpace(r[i]) {
      if i > 0 { assert r[i] == rest[i]; }
    }
  }

  /** A non-empty first field starts with the line's first character. */
  lemma SplitFirstFieldStarts(s: string)
    requires |Split(s)[0]| > 0
    ensures |s| > 0 && Split(s)[0][0] == s[0]
  {
  }

  /** An empty first field followed by more fields means the line starts with the separator. */
  lemma SplitEmptyFirstField(s: string)
    requires |Split(s)| > 1 && Split(s)[0] == ""
    ensures |s| >= 2 && s[0] == ' ' && s[1] == ' '
  {
  }

  /** Replacing one field by a text without the separator keeps the fields clean. */
  lemma ReplaceKeepsClean(fs: seq<string>, i: nat, t: string)
    requires Clean(fs) && i < |fs|
    requires NoSep(t) && (i == |fs| - 1 || !EndsInSpace(t))
    ensures Clean(fs[i := t])
  {
  }

  /**
   * The header and trailer rebuild loops (`firstline = firstline + '  ' + f`):
   * the accumulated line is the join of the fields.
   */
  method JoinFields(fs: seq<string>) returns (line: string)
    ensures line == Join(fs)
    ensures |fs| >= 1 && Clean(fs) ==> Split(line) == fs
  {
    line := "";
    for i := 0 to |fs|
      invariant line == Join(fs[..i])
    {
      if i != 0 {
        JoinSnoc(fs[..i], fs[i]);
        assert fs[..i + 1] == fs[..i] + [fs[i]];
        line := line + Sep + fs[i];
      } else {
        assert fs[..1] == [fs[0]];
        line := fs[0];
      }
    }
    assert fs[..|fs|] == fs;
    if |fs| >= 1 && Clean(fs) {
      SplitJoin(fs);
    }
  }
}
