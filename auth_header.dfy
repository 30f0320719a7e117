/**
 * `request.headers.authorization?.split(' ')[1]`, shared by both access guards. The header is
 * meant to carry `Bearer <token>` (section 2.1 of RFC 6750), but only the second
 * space-separated field is taken and the first is never looked at.
 */
module AuthHeader {

  import opened Optional

  /**
   * JavaScript's `s.split(' ')`: every space ends a field, so n spaces give n + 1 fields,
   * some of them possibly empty.
   */
  function Split(s: string): (fields: seq<string>)
    ensures |fields| >= 1
    ensures forall i :: 0 <= i < |fields| ==> ' ' !in fields[i]
  {
    if s == [] then [[]]
    else
      var rest := Split(s[1..]);
      if s[0] == ' ' then [[]] + rest
      else [[s[0]] + rest[0]] + rest[1..]
  }

  /** The inverse of `Split`: `fields.join(' ')`. */
  function Join(fields: seq<string>): string
    requires |fields| >= 1
  {
    if |fields| == 1 then fields[0] else fields[0] + " " + Join(fields[1..])
  }

  lemma {:induction false} JoinSplit(s: string)
    ensures Join(Split(s)) == s
  {
    if s != [] {
      var rest := Split(s[1..]);
      JoinSplit(s[1..]);
      if s[0] == ' ' {
        assert Split(s)[1..] == rest;
      } else if |rest| == 1 {
        assert Split(s) == [[s[0]] + rest[0]];
      } else {
        assert Split(s)[1..] == rest[1..];
        assert Join(rest) == rest[0] + " " + Join(rest[1..]);
      }
    }
  }

  /** A string without spaces is a single field. */
  lemma {:induction false} SplitWord(w: string)
    requires ' ' !in w
    ensures Split(w) == [w]
  {
    if w != [] {
      SplitWord(w[1..]);
      assert [w[0]] + w[1..] == w;
    }
  }

  /** A space between `a` and `b` splits them apart. */
  lemma {:induction false} SplitAppend(a: string, b: string)
    ensures Split(a + " " + b) == Split(a) + Split(b)
  {
    var s := a + " " + b;
    if a == [] {
      assert s == " " + b && s[1..] == b;
    } else {
      assert s[1..] == a[1..] + " " + b;
      SplitAppend(a[1..], b);
    }
  }

  /** Splitting fields that hold no space and joining them gives the fields back. */
  lemma {:induction false} SplitJoin(fields: seq<string>)
    requires |fields| >= 1
    requires forall i :: 0 <= i < |fields| ==> ' ' !in fields[i]
    ensures Split(Join(fields)) == fields
  {
    if |fields| == 1 {
      SplitWord(fields[0]);
    } else {
      SplitJoin(fields[1..]);
      SplitAppend(fields[0], Join(fields[1..]));
      SplitWord(fields[0]);
    }
  }

  /** The access token of a request: the second field of the header, when there is one and it is not empty. */
  function BearerToken(header: Option<string>): (token: Option<string>)
    ensures token.Some? ==> token.value != [] && ' ' !in token.value
  {
    match header
    case None => None
    case Some(h) =>
      var fields := Split(h);
      if |fields| >= 2 && fields[1] != [] then Some(fields[1]) else None
  }

  /**
   * Any first word is accepted: `<scheme> <token>` yields the token whatever the scheme
   * (so `Basic t` and `x t` work like `Bearer t`; as a string, ` t` with an empty scheme
   * does too, though Node's HTTP parser strips the leading space before a header value
   * reaches the guard).
   */
  lemma TokenAfterAnyScheme(scheme: string, token: string)
    requires ' ' !in scheme && ' ' !in token && token != []
    ensures BearerToken(Some(scheme + " " + token)) == Some(token)
  {
    SplitJoin([scheme, token]);
  }

  /** `h` is `scheme`, one space, `token`, then nothing or a space and further fields. */
  predicate SecondField(h: string, scheme: string, token: string, rest: string) {
    ' ' !in scheme && h == scheme + " " + token + rest && (rest == [] || rest[0] == ' ')
  }

  /**
   * The second field is the token, whatever follows it: `Bearer t`, `Bearer t extra` and
   * `x t` all yield `t`.
   */
  lemma SecondFieldIsToken(h: string, scheme: string, token: string, rest: string)
    requires SecondField(h, scheme, token, rest) && token != [] && ' ' !in token
    ensures BearerToken(Some(h)) == Some(token)
  {
    assert h == scheme + " " + (token + rest);
    SplitAppend(scheme, token + rest);
    SplitWord(scheme);
    if rest == [] {
      assert token + rest == token;
      SplitWord(token);
    } else {
      assert token + rest == token + " " + rest[1..];
      SplitAppend(token, rest[1..]);
      SplitWord(token);
    }
  }

  /** Conversely, a token is only ever found as the second field of the header. */
  lemma TokenIsSecondField(h: string, token: string)
    requires BearerToken(Some(h)) == Some(token)
    ensures exists scheme: string, rest: string :: SecondField(h, scheme, token, rest)
  {
    var fields := Split(h);
    JoinSplit(h);
    var tail := fields[1..];
    var rest := if |tail| == 1 then [] else " " + Join(tail[1..]);
    assert Join(tail) == token + rest;
    assert h == fields[0] + " " + Join(tail);
    assert SecondField(h, fields[0], token, rest);
  }

  /** A header that is absent, has no space, or has two spaces in a row before the token yields no token. */
  lemma NoTokenWithoutSecondField(scheme: string, rest: string)
    requires ' ' !in scheme
    ensures BearerToken(None) == None
    ensures BearerToken(Some(scheme)) == None
    ensures BearerToken(Some(scheme + "  " + rest)) == None
  {
    SplitWord(scheme);
    assert scheme + "  " + rest == scheme + " " + (" " + rest);
    SplitAppend(scheme, " " + rest);
    SplitAppend([], rest);
    assert [] + " " + rest == " " + rest;
  }
}
