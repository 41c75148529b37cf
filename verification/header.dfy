/**
 * The `Authorization` request header: splitting it on single spaces, as
 * JavaScript's `String.prototype.split(' ')` does, and taking the token out
 * of a header that splits into exactly two parts.
 */
module Header {
  import opened Responses

  /** Number of occurrences of `c` in `s`. */
  function Occurrences(s: string, c: char): (n: nat)
    ensures n == 0 <==> c !in s
    ensures n <= |s|
  {
    if s == [] then 0
    else
      assert c in s <==> s[0] == c || c in s[1..];
      (if s[0] == c then 1 else 0) + Occurrences(s[1..], c)
  }

  lemma {:induction false} OccurrencesAppend(a: string, b: string, c: char)
    ensures Occurrences(a + b, c) == Occurrences(a, c) + Occurrences(b, c)
  {
    if a == [] {
      assert a + b == b;
    } else {
      assert (a + b)[0] == a[0] && (a + b)[1..] == a[1..] + b;
      OccurrencesAppend(a[1..], b, c);
    }
  }

  /** Position of the first `c` in `s`. */
  function IndexOf(s: string, c: char): (i: nat)
    requires c in s
    ensures i < |s| && s[i] == c && c !in s[..i]
  {
    if s[0] == c then 0
    else
      assert c in s[1..] by { assert s == [s[0]] + s[1..]; }
      var k := IndexOf(s[1..], c);
      assert s[..k + 1] == [s[0]] + s[1..][..k];
      1 + k
  }

  /**
   * `s.split(sep)`: the pieces between consecutive separators, so an empty
   * string gives one empty piece and every separator adds a piece.
   */
  function Split(s: string, sep: char): (parts: seq<string>)
    ensures |parts| == Occurrences(s, sep) + 1
    ensures forall i :: 0 <= i < |parts| ==> sep !in parts[i]
  {
    if s == [] then [""]
    else
      var rest := Split(s[1..], sep);
      if s[0] == sep then [""] + rest
      else [[s[0]] + rest[0]] + rest[1..]
  }

  /** `parts.join(sep)`: the inverse of `Split`. */
  function Join(parts: seq<string>, sep: char): string
  {
    if parts == [] then ""
    else if |parts| == 1 then parts[0]
    else parts[0] + [sep] + Join(parts[1..], sep)
  }

  /** Joining the pieces back with the separator gives the original text. */
  lemma {:induction false} JoinSplit(s: string, sep: char)
    ensures Join(Split(s, sep), sep) == s
  {
    if s != [] {
      var rest := Split(s[1..], sep);
      JoinSplit(s[1..], sep);
      if s[0] == sep {
        assert Split(s, sep) == [""] + rest;
        assert ([""] + rest)[1..] == rest;
        assert s == [sep] + s[1..];
      } else {
        var parts := Split(s, sep);
        assert parts == [[s[0]] + rest[0]] + rest[1..];
        if |rest| == 1 {
          assert Join(rest, sep) == rest[0];
        } else {
          assert Join(rest, sep) == rest[0] + [sep] + Join(rest[1..], sep);
          assert parts[1..] == rest[1..];
        }
        assert s == [s[0]] + s[1..];
      }
    }
  }

  lemma {:induction false} SplitNoSeparator(s: string, sep: char)
    requires sep !in s
    ensures Split(s, sep) == [s]
  {
    if s != [] {
      assert sep !in s[1..] by { assert s == [s[0]] + s[1..]; }
      SplitNoSeparator(s[1..], sep);
      assert [s[0]] + s[1..] == s;
    }
  }

  lemma {:induction false} SplitAtFirst(a: string, t: string, sep: char)
    requires sep !in a
    ensures Split(a + [sep] + t, sep) == [a] + Split(t, sep)
  {
    var s := a + [sep] + t;
    if a == [] {
      assert s == [sep] + t && s[1..] == t;
    } else {
      assert s[0] == a[0] && s[1..] == a[1..] + [sep] + t;
      assert sep !in a[1..] by { assert a == [a[0]] + a[1..]; }
      SplitAtFirst(a[1..], t, sep);
      assert [a[0]] + a[1..] == a;
    }
  }

  /** After the only separator of `s` there is no separator. */
  lemma RestAfterOnlySeparator(s: string, i: nat, sep: char)
    requires i < |s| && s[i] == sep && Occurrences(s, sep) == 1
    ensures sep !in s[i + 1..]
  {
    assert s == s[..i] + [sep] + s[i + 1..];
    OccurrencesAppend(s[..i] + [sep], s[i + 1..], sep);
    OccurrencesAppend(s[..i], [sep], sep);
    assert Occurrences([sep], sep) == 1;
  }

  /** A text with exactly one separator, at `i`, splits into the text before and the text after it. */
  lemma SplitAround(s: string, i: nat, sep: char)
    requires i < |s| && s[i] == sep && sep !in s[..i] && sep !in s[i + 1..]
    ensures Split(s, sep) == [s[..i], s[i + 1..]]
  {
    assert s == s[..i] + [sep] + s[i + 1..];
    SplitAtFirst(s[..i], s[i + 1..], sep);
    SplitNoSeparator(s[i + 1..], sep);
  }

  /** Separator-free pieces are recovered from their join: `Split` is the only such decomposition. */
  lemma {:induction false} SplitJoin(parts: seq<string>, sep: char)
    requires parts != []
    requires forall i :: 0 <= i < |parts| ==> sep !in parts[i]
    ensures Split(Join(parts, sep), sep) == parts
  {
    if |parts| == 1 {
      SplitNoSeparator(parts[0], sep);
    } else {
      SplitJoin(parts[1..], sep);
      SplitAtFirst(parts[0], Join(parts[1..], sep), sep);
      assert [parts[0]] + parts[1..] == parts;
    }
  }

  /** A text with exactly one separator splits into the text before it and the text after it. */
  lemma SplitOneSeparator(s: string, sep: char)
    requires Occurrences(s, sep) == 1
    ensures sep in s
    ensures Split(s, sep) == [s[..IndexOf(s, sep)], s[IndexOf(s, sep) + 1..]]
  {
    var i := IndexOf(s, sep);
    RestAfterOnlySeparator(s, i, sep);
    SplitAround(s, i, sep);
  }

  /** What the handlers read off the `Authorization` header. */
  datatype Credential = NoHeader | Malformed | Token(token: string)

  /**
   * An absent or empty header gives `NoHeader`; a header that does not split
   * into exactly two parts on `' '` gives `Malformed`; otherwise the second
   * part is the token. The first part (the scheme word) is never looked at.
   */
  function ParseAuthorization(header: Option<string>): (c: Credential)
    ensures c.NoHeader? <==> header == None || header == Some("")
    ensures c.Token? <==> header.Some? && Occurrences(header.value, ' ') == 1
    ensures c.Token? ==> c.token == header.value[IndexOf(header.value, ' ') + 1..]
  {
    match header
    case None => NoHeader
    case Some(h) =>
      if h == "" then NoHeader
      else
        var parts := Split(h, ' ');
        if |parts| != 2 then Malformed
        else
          SplitOneSeparator(h, ' ');
          Token(parts[1])
  }

  /** Any space-free scheme word followed by one space and a space-free token yields that token. */
  lemma {:induction false} ParseBearer(scheme: string, token: string)
    requires ' ' !in scheme && ' ' !in token
    ensures ParseAuthorization(Some(scheme + " " + token)) == Token(token)
  {
    var h := scheme + " " + token;
    assert Join([scheme, token], ' ') == h by {
      assert Join([scheme, token][1..], ' ') == token;
    }
    SplitJoin([scheme, token], ' ');
    assert |Split(h, ' ')| == 2;
  }
}
