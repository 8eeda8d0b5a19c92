/**
 * The query string of the catalog search request. search() pastes the search
 * field's text into the URL as it is, between "q=" and
 * "&type=track&limit=" + QString::number(maxResults). QUrl ends the query at
 * the first '#', the start of the fragment, which is never sent; the server
 * splits what is sent into name=value fields at each '&'. Text holding a '#'
 * therefore loses the type and limit fields, and text holding a '&' has only
 * its part before the '&' searched for.
 */
module SearchUrl {

  /** What follows the search text in the URL, before the limit's digits. */
  const TypeAndLimit: string := "&type=track&limit="

  /** The longest prefix of `s` holding no character of `stop`. */
  function Before(s: string, stop: set<char>): (r: string)
    ensures r <= s
    ensures forall i :: 0 <= i < |r| ==> r[i] !in stop
    ensures r == s || (|r| < |s| && s[|r|] in stop)
    decreases |s|
  {
    if s == [] || s[0] in stop then [] else [s[0]] + Before(s[1..], stop)
  }

  /** The digit character for `d`. */
  function Digit(d: nat): char
    requires d < 10
  {
    ('0' as int + d) as char
  }

  /** The number a string of decimal digits denotes, most significant first. */
  function DigitsValue(s: string): int
    decreases |s|
  {
    if s == [] then 0 else 10 * DigitsValue(s[..|s| - 1]) + (s[|s| - 1] as int - '0' as int)
  }

  /** QString::number for a non-negative integer: its decimal digits, without leading zeros, which denote it. */
  function Decimal(n: nat): (r: string)
    ensures |r| >= 1
    ensures forall i :: 0 <= i < |r| ==> '0' <= r[i] <= '9'
    ensures n > 0 ==> r[0] != '0'
    ensures DigitsValue(r) == n
  {
    if n < 10 then [Digit(n)]
    else
      var r := Decimal(n / 10) + [Digit(n % 10)];
      assert r[..|r| - 1] == Decimal(n / 10);
      r
  }

  /** The URL's query as QUrl splits it off: everything after '?' up to the first '#'. */
  function SearchQuery(text: string, limit: nat): string {
    Before("q=" + text + TypeAndLimit + Decimal(limit), {'#'})
  }

  /** The first '&'-separated field of a query, the one that carries `q`. */
  function LeadingField(query: string): string {
    Before(query, {'&'})
  }

  /** `Before` keeps the whole string exactly when no stop character occurs in it. */
  lemma BeforeWhole(s: string, stop: set<char>)
    ensures Before(s, stop) == s <==> forall i :: 0 <= i < |s| ==> s[i] !in stop
  {
  }

  /** `Before` over a concatenation: the second part counts only if the first has no stop character. */
  lemma {:induction false} BeforeAppend(a: string, b: string, stop: set<char>)
    ensures Before(a + b, stop) == if Before(a, stop) == a then a + Before(b, stop) else Before(a, stop)
    decreases |a|
  {
    if a == [] {
      assert a + b == b;
    } else {
      assert (a + b)[0] == a[0];
      if a[0] !in stop {
        assert (a + b)[1..] == a[1..] + b;
        BeforeAppend(a[1..], b, stop);
        assert Before(a, stop) == [a[0]] + Before(a[1..], stop);
        assert Before(a, stop) == a <==> Before(a[1..], stop) == a[1..] by {
          if Before(a, stop) == a {
            assert Before(a, stop)[1..] == a[1..];
          }
          if Before(a[1..], stop) == a[1..] {
            assert [a[0]] + a[1..] == a;
          }
        }
      }
    }
  }

  /** Cutting at one set of characters and then at another is cutting at both. */
  lemma {:induction false} BeforeTwice(s: string, first: set<char>, second: set<char>)
    ensures Before(Before(s, first), second) == Before(s, first + second)
    decreases |s|
  {
    if s != [] && s[0] !in first {
      BeforeTwice(s[1..], first, second);
      var r := Before(s, first);
      assert r == [s[0]] + Before(s[1..], first);
      assert r[0] == s[0] && r[1..] == Before(s[1..], first);
    }
  }

  /** No '#' occurs after the search text. */
  lemma FieldsAfterText(limit: nat)
    ensures Before(TypeAndLimit + Decimal(limit), {'#'}) == TypeAndLimit + Decimal(limit)
    ensures Before(TypeAndLimit + Decimal(limit), {'&', '#'}) == []
  {
    var tail := TypeAndLimit + Decimal(limit);
    assert tail[0] == '&';
    forall i | 0 <= i < |tail| ensures tail[i] !in {'#'} {
      if i >= |TypeAndLimit| {
        assert tail[i] == Decimal(limit)[i - |TypeAndLimit|];
      }
    }
    BeforeWhole(tail, {'#'});
  }

  /** The search text is sent after "q=" up to its first '#'. */
  lemma TextInQuery(text: string, limit: nat, stop: set<char>)
    requires '#' in stop && stop <= {'&', '#'}
    ensures Before("q=" + text + TypeAndLimit + Decimal(limit), stop) ==
            "q=" + (if Before(text, stop) == text then text + Before(TypeAndLimit + Decimal(limit), stop) else Before(text, stop))
  {
    var tail := TypeAndLimit + Decimal(limit);
    assert "q=" + text + TypeAndLimit + Decimal(limit) == "q=" + (text + tail);
    assert Before("q=", stop) == "q=" by {
      assert "q="[0] == 'q' && "q="[1] == '=';
      BeforeWhole("q=", stop);
    }
    BeforeAppend("q=", text + tail, stop);
    BeforeAppend(text, tail, stop);
  }

  /**
   * The query carries the text, the type and the limit as built exactly when
   * the text holds no '#'.
   */
  lemma QueryAsBuilt(text: string, limit: nat)
    ensures SearchQuery(text, limit) == "q=" + text + TypeAndLimit + Decimal(limit) <==> '#' !in text
  {
    TextInQuery(text, limit, {'#'});
    FieldsAfterText(limit);
    BeforeWhole(text, {'#'});
    if '#' in text {
      var i :| 0 <= i < |text| && text[i] == '#';
      assert Before(text, {'#'}) != text;
      assert |SearchQuery(text, limit)| < |"q=" + text + TypeAndLimit + Decimal(limit)|;
    }
  }

  /** For text holding a '#', the query is "q=" and the text before it; type and limit are gone. */
  lemma QueryCutAtFragment(text: string, limit: nat)
    requires '#' in text
    ensures SearchQuery(text, limit) == "q=" + Before(text, {'#'})
  {
    TextInQuery(text, limit, {'#'});
    BeforeWhole(text, {'#'});
    var i :| 0 <= i < |text| && text[i] == '#';
  }

  /** The field the server reads `q` from holds the text up to its first '&' or '#'. */
  lemma SearchedText(text: string, limit: nat)
    ensures LeadingField(SearchQuery(text, limit)) == "q=" + Before(text, {'&', '#'})
  {
    var built := "q=" + text + TypeAndLimit + Decimal(limit);
    BeforeTwice(built, {'#'}, {'&'});
    assert {'#'} + {'&'} == {'&', '#'};
    TextInQuery(text, limit, {'&', '#'});
    FieldsAfterText(limit);
  }
}
