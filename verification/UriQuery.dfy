/**
 Boot URI parameters: the query scan and the decimal port comparison of the NVMe/TCP driver.
 */
module UriQuery {
  import opened Bytes

  // ---------------------------------------------------------------- specification

  /** Position of the first '&' at or after `i`, or the end. */
  function NextAmp(s: string, i: nat): (r: nat)
    requires i <= |s|
    ensures i <= r <= |s| && (r < |s| ==> s[r] == '&')
    decreases |s| - i
  {
    if i == |s| || s[i] == '&' then i else NextAmp(s, i + 1)
  }

  lemma {:induction false} NoAmpBefore(s: string, i: nat)
    requires i <= |s|
    ensures forall j :: i <= j < NextAmp(s, i) ==> s[j] != '&'
    decreases |s| - i
  {
    if i < |s| && s[i] != '&' { NoAmpBefore(s, i + 1); }
  }

  predicate StartsWith(c: string, name: string) { |name| <= |c| && c[..|name|] == name }

  /** The '&'-separated components of a query. */
  function Components(s: string): seq<string> {
    var end := NextAmp(s, 0);
    if end == |s| then [s] else [s[..end]] + Components(s[end + 1..])
  }

  /** The value of the first component that starts with `name`. */
  function FirstValue(cs: seq<string>, name: string): Option<string> {
    if cs == [] then None
    else if StartsWith(cs[0], name) then Some(cs[0][|name|..])
    else FirstValue(cs[1..], name)
  }

  /** A parameter's value; an empty value counts as absent. */
  function Param(s: string, name: string): Option<string> {
    match FirstValue(Components(s), name)
    case None => None
    case Some(v) => if v == "" then None else Some(v)
  }

  // ---------------------------------------------------------------- the search

  predicate MatchAt(s: string, name: string, i: nat) {
    i + |name| <= |s| && s[i..i + |name|] == name
  }

  /** A match that begins a component. */
  predicate Candidate(s: string, name: string, i: nat) {
    MatchAt(s, name, i) && (i == 0 || s[i - 1] == '&')
  }

  predicate NoCandidateBelow(s: string, name: string, n: nat) {
    forall i: nat :: i < n ==> !Candidate(s, name, i)
  }

  predicate NameOk(name: string) { name != "" && '&' !in name }

  lemma ShiftCandidate(s: string, name: string, k: nat, i: nat)
    requires 0 < k <= |s| && s[k - 1] == '&'
    ensures Candidate(s, name, k + i) == Candidate(s[k..], name, i)
  {
    if k + i + |name| <= |s| {
      assert s[k..][i..i + |name|] == s[k + i..k + i + |name|];
      if i > 0 { assert s[k..][i - 1] == s[k + i - 1]; }
    }
  }

  /** The first component has the name exactly when the query begins with it, and no other
      place inside it can begin a component. */
  lemma FirstComponent(s: string, name: string)
    requires NameOk(name)
    ensures var end := NextAmp(s, 0);
            && (StartsWith(s[..end], name) <==> Candidate(s, name, 0))
            && (forall i: nat :: 0 < i <= end ==> !Candidate(s, name, i))
            && (Candidate(s, name, 0) ==> NextAmp(s, |name|) == end)
  {
    var end := NextAmp(s, 0);
    NoAmpBefore(s, 0);
    if MatchAt(s, name, 0) {
      assert forall j :: 0 <= j < |name| ==> s[j] == s[0..|name|][j] == name[j];
      assert end >= |name|;
      assert s[..end][..|name|] == name;
      AmpUnique(s, |name|, end);
    }
    if StartsWith(s[..end], name) { assert s[0..|name|] == s[..end][..|name|]; }
  }

  lemma AmpUnique(s: string, i: nat, end: nat)
    requires i <= end <= |s| && (end < |s| ==> s[end] == '&')
    requires forall j :: i <= j < end ==> s[j] != '&'
    ensures NextAmp(s, i) == end
  {
    NoAmpBefore(s, i);
  }

  lemma NextAmpShift(s: string, k: nat, i: nat)
    requires k + i <= |s|
    ensures NextAmp(s, k + i) == k + NextAmp(s[k..], i)
  {
    var end := k + NextAmp(s[k..], i);
    NoAmpBefore(s[k..], i);
    forall j | k + i <= j < end ensures s[j] != '&' { assert s[j] == s[k..][j - k]; }
    AmpUnique(s, k + i, end);
  }

  lemma FirstValueUnfold(s: string, name: string)
    ensures var end := NextAmp(s, 0);
            FirstValue(Components(s), name)
            == if StartsWith(s[..end], name) then Some(s[..end][|name|..])
               else if end == |s| then None else FirstValue(Components(s[end + 1..]), name)
  {
    var end := NextAmp(s, 0);
    if end == |s| {
      assert s[..end] == s && Components(s)[1..] == [];
    } else {
      assert Components(s)[1..] == Components(s[end + 1..]);
    }
  }

  lemma LaterCandidate(s: string, name: string, k: nat, i: nat)
    requires 0 < k <= i && k <= |s| && s[k - 1] == '&'
    requires Candidate(s, name, i) && NoCandidateBelow(s, name, i)
    ensures Candidate(s[k..], name, i - k) && NoCandidateBelow(s[k..], name, i - k)
  {
    hide Candidate;
    ShiftCandidate(s, name, k, i - k);
    forall m: nat | m < i - k ensures !Candidate(s[k..], name, m) { ShiftCandidate(s, name, k, m); }
  }

  lemma ValueShift(s: string, k: nat, i: nat)
    requires k + i <= |s|
    ensures s[k..][i..NextAmp(s[k..], i)] == s[k + i..NextAmp(s, k + i)]
  {
    NextAmpShift(s, k, i);
  }

  lemma CandidateAtStart(s: string, name: string)
    requires NameOk(name) && Candidate(s, name, 0)
    ensures FirstValue(Components(s), name) == Some(s[|name|..NextAmp(s, |name|)])
  {
    var end := NextAmp(s, 0);
    FirstComponent(s, name);
    FirstValueUnfold(s, name);
    hide Components, FirstValue, Candidate, NextAmp, NameOk;
    assert s[..end][|name|..] == s[|name|..end];
  }

  lemma CandidateBeyond(s: string, name: string, i: nat)
    requires NameOk(name) && Candidate(s, name, i) && NoCandidateBelow(s, name, i) && i > 0
    ensures i > NextAmp(s, 0) && !StartsWith(s[..NextAmp(s, 0)], name)
  {
    FirstComponent(s, name);
  }

  /** The least candidate locates the first component with the name, and its value. */
  lemma {:induction false} LeastCandidate(s: string, name: string, i: nat)
    requires NameOk(name) && Candidate(s, name, i) && NoCandidateBelow(s, name, i)
    ensures FirstValue(Components(s), name) == Some(s[i + |name|..NextAmp(s, i + |name|)])
    decreases |s|
  {
    assert i + |name| <= |s|;
    hide Components, FirstValue, Candidate, NextAmp, NoCandidateBelow, NameOk, StartsWith;
    if i == 0 {
      CandidateAtStart(s, name);
    } else {
      CandidateBeyond(s, name, i);
      var k := NextAmp(s, 0) + 1;
      LaterCandidate(s, name, k, i);
      LeastCandidate(s[k..], name, i - k);
      ValueBeyond(s, name, k, i);
    }
  }

  lemma ValueBeyond(s: string, name: string, k: nat, i: nat)
    requires k == NextAmp(s, 0) + 1 <= i && i + |name| <= |s| && !StartsWith(s[..k - 1], name)
    ensures var j := i - k + |name|;
            FirstValue(Components(s[k..]), name) == Some(s[k..][j..NextAmp(s[k..], j)]) ==>
              FirstValue(Components(s), name) == Some(s[i + |name|..NextAmp(s, i + |name|)])
  {
    FirstValueUnfold(s, name);
    hide Components, FirstValue, NextAmp, StartsWith;
    ValueShift(s, k, i - k + |name|);
  }

  lemma {:induction false} NoCandidate(s: string, name: string)
    requires NameOk(name) && NoCandidateBelow(s, name, |s| + 1)
    ensures FirstValue(Components(s), name) == None
    decreases |s|
  {
    var end := NextAmp(s, 0);
    FirstComponent(s, name);
    FirstValueUnfold(s, name);
    assert !Candidate(s, name, 0);
    if end < |s| {
      var k, t := end + 1, s[end + 1..];
      forall m: nat | m < |t| + 1 ensures !Candidate(t, name, m) { ShiftCandidate(s, name, k, m); }
      NoCandidate(t, name);
    }
  }

  /** strstr: the first match at or after `from`. */
  method StrStr(s: string, from: nat, name: string) returns (r: Option<nat>)
    requires from <= |s|
    ensures match r
            case None => forall i: nat :: from <= i ==> !MatchAt(s, name, i)
            case Some(m) => from <= m && MatchAt(s, name, m) && forall i: nat :: from <= i < m ==> !MatchAt(s, name, i)
  {
    var i := from;
    while i + |name| <= |s|
      invariant from <= i
      invariant forall j: nat :: from <= j < i ==> !MatchAt(s, name, j)
    {
      if s[i..i + |name|] == name { return Some(i); }
      i := i + 1;
    }
    r := None;
  }

  /** Skipping past a match that begins no component passes over no candidate. */
  lemma SkipIsSafe(s: string, name: string, from: nat, m: nat)
    requires NameOk(name) && NoCandidateBelow(s, name, from) && from <= m
    requires MatchAt(s, name, m) && !Candidate(s, name, m)
    requires forall i: nat :: from <= i < m ==> !MatchAt(s, name, i)
    ensures NoCandidateBelow(s, name, m + |name|)
  {
    forall i: nat | i < m + |name| ensures !Candidate(s, name, i) {
      if i > m {
        assert s[i - 1] == s[m..m + |name|][i - 1 - m] == name[i - 1 - m];
      }
    }
  }

  /** nvmetcp_parse_qparam: for every query, the value of the first component with the name,
      or none if it is absent or empty. */
  method ParseQparam(query: Option<string>, name: string) returns (r: Option<string>)
    requires NameOk(name)
    ensures r == if query == None then None else Param(query.value, name)
  {
    hide Components, FirstValue;
    if query == None { return None; }
    var s := query.value;
    var from := 0;
    var found := StrStr(s, from, name);
    while found.Some? && !(found.value == 0 || s[found.value - 1] == '&')
      invariant from <= |s| && NoCandidateBelow(s, name, from)
      invariant match found
                case None => forall i: nat :: from <= i ==> !MatchAt(s, name, i)
                case Some(m) => from <= m && MatchAt(s, name, m) && forall i: nat :: from <= i < m ==> !MatchAt(s, name, i)
      decreases |s| - from
    {
      SkipIsSafe(s, name, from, found.value);
      from := found.value + |name|;
      found := StrStr(s, from, name);
    }
    if found == None {
      NoCandidate(s, name);
      return None;
    }
    var m := found.value;
    LeastCandidate(s, name, m);
    var end := NextAmp(s, m + |name|);
    r := if end == m + |name| then None else Some(s[m + |name|..end]);
  }

  // ---------------------------------------------------------------- the port

  predicate Digit(c: char) { '0' <= c <= '9' }

  predicate AllDigits(s: string) { forall i :: 0 <= i < |s| ==> Digit(s[i]) }

  function Value(s: string): nat
    requires AllDigits(s)
  {
    if s == "" then 0 else 10 * Value(s[..|s| - 1]) + (s[|s| - 1] as int - '0' as int)
  }

  lemma {:induction false} ValueGrows(s: string, n: nat)
    requires AllDigits(s) && n <= |s|
    ensures Value(s[..n]) <= Value(s)
    decreases |s| - n
  {
    if n < |s| {
      assert s[..n + 1][..n] == s[..n];
      ValueGrows(s, n + 1);
    } else {
      assert s[..n] == s;
    }
  }

  /** nvmetcp_use_tls: TLS exactly when a key is given and the service identifier is a non-empty
      decimal string, of whatever length, equal to the target port. */
  method UseTls(psk: Option<string>, trsvcid: Option<string>, targetPort: nat) returns (r: bool)
    requires targetPort <= 0xffff
    ensures r <==> && psk.Some? && trsvcid.Some? && trsvcid.value != ""
                   && AllDigits(trsvcid.value) && Value(trsvcid.value) == targetPort
  {
    if psk == None || trsvcid == None || trsvcid.value == "" { return false; }
    var s := trsvcid.value;
    var port := 0;
    for i := 0 to |s|
      invariant AllDigits(s[..i]) && port == Value(s[..i]) <= 0xffff
    {
      if !('0' <= s[i] <= '9') { return false; }
      assert s[..i + 1][..i] == s[..i];
      port := port * 10 + (s[i] as int - '0' as int);
      if port > 0xffff {
        if AllDigits(s) { ValueGrows(s, i + 1); }
        return false;
      }
    }
    assert s[..|s|] == s;
    r := port == targetPort;
  }

  // ---------------------------------------------------------------- what the readings mean

  function JoinAmp(cs: seq<string>): string
    requires cs != []
  {
    if |cs| == 1 then cs[0] else cs[0] + "&" + JoinAmp(cs[1..])
  }

  /** The components are the query cut at every '&': joined they are the query, and none contains
      an '&'. */
  lemma {:induction false} ComponentsExactly(s: string)
    ensures Components(s) != [] && JoinAmp(Components(s)) == s
    ensures forall i :: 0 <= i < |Components(s)| ==> '&' !in Components(s)[i]
    decreases |s|
  {
    var end := NextAmp(s, 0);
    NoAmpBefore(s, 0);
    if end == |s| {
      assert Components(s) == [s];
    } else {
      ComponentsExactly(s[end + 1..]);
      var first, rest := s[..end], Components(s[end + 1..]);
      assert Components(s) == [first] + rest;
      assert s == first + "&" + s[end + 1..];
      hide Components;
      OneMore(first, rest);
    }
  }

  lemma OneMore(first: string, rest: seq<string>)
    requires rest != [] && '&' !in first
    requires forall i :: 0 <= i < |rest| ==> '&' !in rest[i]
    ensures JoinAmp([first] + rest) == first + "&" + JoinAmp(rest)
    ensures forall i :: 0 <= i < |[first] + rest| ==> '&' !in ([first] + rest)[i]
  {
    assert ([first] + rest)[1..] == rest;
  }

  lemma {:induction false} FirstValueExactly(cs: seq<string>, name: string, v: string)
    ensures FirstValue(cs, name) == Some(v) <==> Holds(cs, name, v)
  {
    if cs != [] {
      var rest := cs[1..];
      FirstValueExactly(rest, name, v);
      if StartsWith(cs[0], name) {
        assert cs[0] == name + cs[0][|name|..];
        assert FirstNamed(cs, name, 0);
        if cs[0] == name + v { assert cs[0][|name|..] == v && FirstWith(cs, name, v, 0); }
      } else {
        if i: nat :| FirstWith(rest, name, v, i) { assert FirstWith(cs, name, v, i + 1); }
        if i: nat :| FirstWith(cs, name, v, i) {
          assert cs[i][..|name|] == name;
          assert i > 0 && FirstWith(rest, name, v, i - 1);
        }
      }
    }
  }

  /** No component before the i-th begins with the name. */
  predicate FirstNamed(cs: seq<string>, name: string, i: nat) {
    i < |cs| && forall j :: 0 <= j < i ==> !(name <= cs[j])
  }

  /** The i-th component is the first to begin with the name, and is the name and this value. */
  predicate FirstWith(cs: seq<string>, name: string, v: string, i: nat) {
    FirstNamed(cs, name, i) && cs[i] == name + v
  }

  /** The first component that begins with the name is the name followed by this value. */
  predicate Holds(cs: seq<string>, name: string, v: string) {
    exists i: nat :: i < |cs| && FirstWith(cs, name, v, i)
  }

  /** A parameter has a value exactly when the first component that begins with its name is the
      name followed by that value, and the value is not empty. */
  lemma ParamExactly(s: string, name: string, v: string)
    ensures Param(s, name) == Some(v) <==>
              v != "" && Holds(Components(s), name, v)
  {
    var cs := Components(s);
    hide Components, FirstValue, Holds;
    assert Param(s, name) == Some(v) <==> v != "" && FirstValue(cs, name) == Some(v);
    FirstValueExactly(cs, name, v);
  }

  /** A number in decimal, without leading zeros. */
  function Decimal(n: nat): string {
    if n < 10 then [('0' as int + n) as char] else Decimal(n / 10) + [('0' as int + n % 10) as char]
  }

  /** The value of a decimal string is the number written. */
  lemma {:induction false} ValueOfDecimal(n: nat)
    ensures AllDigits(Decimal(n)) && Value(Decimal(n)) == n && Decimal(n) != ""
  {
    if n >= 10 {
      ValueOfDecimal(n / 10);
      var s := Decimal(n);
      assert s[..|s| - 1] == Decimal(n / 10);
    } else {
      assert Decimal(n)[..0] == "";
    }
  }
}
