/** Finding the client behind trusted proxies: the scan of X-Forwarded-For from the right that avoids splitting the
    header, proved to find what splitting first would. Addresses, prefixes and their parsers are parameters. */
module ForwardedFor {
  import opened Basics
  import opened Strings

  type Addr = nat
  type Prefix = nat

  /** The address library. */
  datatype Net = Net(
    isSpace: char -> bool, parseAddr: string -> Option<Addr>, parseAddrPort: string -> Option<Addr>,
    parsePrefix: string -> Option<Prefix>, masked: Prefix -> Prefix, contains: (Prefix, Addr) -> bool)

  // ---- trimming ----

  function TrimLeft(isSpace: char -> bool, s: string): string {
    if s != "" && isSpace(s[0]) then TrimLeft(isSpace, s[1..]) else s
  }

  function TrimRight(isSpace: char -> bool, s: string): string {
    if s != "" && isSpace(s[|s| - 1]) then TrimRight(isSpace, s[..|s| - 1]) else s
  }

  function TrimSpace(isSpace: char -> bool, s: string): string { TrimRight(isSpace, TrimLeft(isSpace, s)) }

  predicate AllSpace(isSpace: char -> bool, s: string) { forall i :: 0 <= i < |s| ==> isSpace(s[i]) }

  lemma {:induction false} TrimLeftCuts(isSpace: char -> bool, s: string)
    ensures var r := TrimLeft(isSpace, s);
            && |r| <= |s| && s[|s| - |r|..] == r && (forall i :: 0 <= i < |s| - |r| ==> isSpace(s[i]))
            && (r != "" ==> !isSpace(r[0]))
  {
    if s != "" && isSpace(s[0]) {
      TrimLeftCuts(isSpace, s[1..]);
      assert forall i :: 0 < i < |s| ==> s[i] == s[1..][i - 1];
    }
  }

  lemma {:induction false} TrimRightCuts(isSpace: char -> bool, s: string)
    ensures var r := TrimRight(isSpace, s);
            && |r| <= |s| && s[..|r|] == r && (forall i :: |r| <= i < |s| ==> isSpace(s[i]))
            && (r != "" ==> !isSpace(r[|r| - 1]))
  {
    if s != "" && isSpace(s[|s| - 1]) {
      TrimRightCuts(isSpace, s[..|s| - 1]);
      assert forall i :: 0 <= i < |s| - 1 ==> s[i] == s[..|s| - 1][i];
    }
  }

  lemma Cut(s: string, n: nat)
    requires n <= |s|
    ensures s == s[..n] + s[n..]
  {
  }

  lemma Regroup(a: string, b: string, c: string)
    ensures a + (b + c) == a + b + c
  {
  }

  /** Trimming takes white space off both ends, all of it and nothing else. */
  lemma TrimmedBetweenSpaces(isSpace: char -> bool, s: string) returns (pre: string, post: string)
    ensures s == pre + TrimSpace(isSpace, s) + post
    ensures (forall i :: 0 <= i < |pre| ==> isSpace(pre[i])) && (forall i :: 0 <= i < |post| ==> isSpace(post[i]))
    ensures var r := TrimSpace(isSpace, s); r != "" ==> !isSpace(r[0]) && !isSpace(r[|r| - 1])
  {
    var left := TrimLeft(isSpace, s);
    var r := TrimRight(isSpace, left);
    TrimLeftCuts(isSpace, s);
    TrimRightCuts(isSpace, left);
    pre, post := s[..|s| - |left|], left[|r|..];
    assert s == pre + r + post by {
      Cut(s, |s| - |left|);
      Cut(left, |r|);
      Regroup(pre, r, post);
    }
    if r != "" {
      assert left == r + post by { Cut(left, |r|); }
      assert r[0] == left[0];
    }
  }

  lemma {:induction false} TrimLeftPadded(isSpace: char -> bool, pre: string, s: string)
    requires AllSpace(isSpace, pre)
    ensures TrimLeft(isSpace, pre + s) == TrimLeft(isSpace, s)
  {
    if pre == "" {
      assert pre + s == s;
    } else {
      assert (pre + s)[1..] == pre[1..] + s;
      TrimLeftPadded(isSpace, pre[1..], s);
    }
  }

  lemma {:induction false} TrimRightPadded(isSpace: char -> bool, s: string, post: string)
    requires AllSpace(isSpace, post)
    ensures TrimRight(isSpace, s + post) == TrimRight(isSpace, s)
  {
    if post == "" {
      assert s + post == s;
    } else {
      assert (s + post)[..|s + post| - 1] == s + post[..|post| - 1];
      TrimRightPadded(isSpace, s, post[..|post| - 1]);
    }
  }

  lemma {:induction false} TrimLeftBefore(isSpace: char -> bool, s: string, post: string)
    requires AllSpace(isSpace, post)
    ensures TrimLeft(isSpace, s + post) == if TrimLeft(isSpace, s) == "" then "" else TrimLeft(isSpace, s) + post
  {
    if s == "" {
      assert s + post == post == post + "";
      TrimLeftPadded(isSpace, post, "");
    } else if isSpace(s[0]) {
      assert (s + post)[1..] == s[1..] + post;
      TrimLeftBefore(isSpace, s[1..], post);
    }
  }

  /** More white space around an entry does not change what it is trimmed to. */
  lemma TrimPadded(isSpace: char -> bool, pre: string, s: string, post: string)
    requires AllSpace(isSpace, pre) && AllSpace(isSpace, post)
    ensures TrimSpace(isSpace, pre + s + post) == TrimSpace(isSpace, s)
  {
    assert pre + s + post == pre + (s + post);
    TrimLeftPadded(isSpace, pre, s + post);
    TrimLeftBefore(isSpace, s, post);
    if TrimLeft(isSpace, s) != "" { TrimRightPadded(isSpace, TrimLeft(isSpace, s), post); }
  }

  // ---- what is to be found ----

  predicate Trusted(net: Net, ip: Addr, trusted: seq<Prefix>) {
    exists k :: 0 <= k < |trusted| && net.contains(trusted[k], ip)
  }

  /** The address an entry of the header names, if it names an untrusted one. */
  function Candidate(net: Net, trusted: seq<Prefix>, entry: string): (r: Option<Addr>)
    ensures r.Some? ==> !Trusted(net, r.value, trusted)
  {
    var part := TrimSpace(net.isSpace, entry);
    if part == "" then None
    else match net.parseAddr(part)
      case None => None
      case Some(ip) => if Trusted(net, ip, trusted) then None else Some(ip)
  }

  /** An entry counts exactly if what is left after trimming is an address that no trusted prefix contains. */
  lemma CandidateByEntry(net: Net, trusted: seq<Prefix>, entry: string)
    ensures var r, part := Candidate(net, trusted, entry), TrimSpace(net.isSpace, entry);
            && (r.Some? ==> part != "" && r == net.parseAddr(part)
                            && forall k :: 0 <= k < |trusted| ==> !net.contains(trusted[k], r.value))
            && (r.None? ==> part == "" || net.parseAddr(part).None?
                            || exists k :: 0 <= k < |trusted| && net.contains(trusted[k], net.parseAddr(part).value))
  {
  }

  /** Split first, then search from the right. */
  function RightmostCandidate(net: Net, trusted: seq<Prefix>, entries: seq<string>): (r: Option<Addr>)
    ensures r.Some? ==> exists k ::
              && 0 <= k < |entries| && Candidate(net, trusted, entries[k]) == r
              && forall j :: k < j < |entries| ==> Candidate(net, trusted, entries[j]).None?
    ensures r.None? ==> forall j :: 0 <= j < |entries| ==> Candidate(net, trusted, entries[j]).None?
  {
    if entries == [] then None
    else
      var last := |entries| - 1;
      if Candidate(net, trusted, entries[last]).Some? then Candidate(net, trusted, entries[last])
      else RightmostCandidate(net, trusted, entries[..last])
  }

  function Search(net: Net, trusted: seq<Prefix>, value: string): Option<Addr> {
    RightmostCandidate(net, trusted, Split(value, ','))
  }

  lemma LastOrEarlier(net: Net, trusted: seq<Prefix>, entries: seq<string>, c: Option<Addr>, front: seq<string>)
    requires entries != [] && front == entries[..|entries| - 1]
    requires Candidate(net, trusted, entries[|entries| - 1]) == c
    ensures RightmostCandidate(net, trusted, entries) == if c.Some? then c else RightmostCandidate(net, trusted, front)
  {
  }

  lemma {:induction false} SameCandidates(net: Net, trusted: seq<Prefix>, a: seq<string>, b: seq<string>)
    requires |a| == |b| && forall j :: 0 <= j < |a| ==> Candidate(net, trusted, a[j]) == Candidate(net, trusted, b[j])
    ensures RightmostCandidate(net, trusted, a) == RightmostCandidate(net, trusted, b)
  {
    if a != [] {
      var front, other, c := a[..|a| - 1], b[..|a| - 1], Candidate(net, trusted, a[|a| - 1]);
      SameCandidates(net, trusted, front, other);
      LastOrEarlier(net, trusted, a, c, front);
      LastOrEarlier(net, trusted, b, c, other);
    }
  }

  /** White space around an entry of the header, on either side, does not change what is found. */
  lemma PaddingChangesNothing(net: Net, trusted: seq<Prefix>, entries: seq<string>, k: nat, pre: string, post: string)
    requires k < |entries| && (forall e :: e in entries ==> ',' !in e) && ',' !in pre && ',' !in post
    requires forall i :: 0 <= i < |pre| ==> net.isSpace(pre[i])
    requires forall i :: 0 <= i < |post| ==> net.isSpace(post[i])
    ensures Search(net, trusted, Join(entries[k := pre + entries[k] + post], ','))
         == Search(net, trusted, Join(entries, ','))
  {
    assert entries[k] in entries;
    SplitJoin(entries, ',');
    SplitJoin(entries[k := pre + entries[k] + post], ',');
    TrimPadded(net.isSpace, pre, entries[k], post);
    SameCandidates(net, trusted, entries[k := pre + entries[k] + post], entries);
  }

  lemma SearchBackwards(net: Net, trusted: seq<Prefix>, before: string, last: string)
    requires ',' !in last
    ensures Search(net, trusted, before + [','] + last)
         == if Candidate(net, trusted, last).Some? then Candidate(net, trusted, last) else Search(net, trusted, before)
  {
    SplitAtLast(before, ',', last);
    var entries := Split(before, ',');
    assert (entries + [last])[..|entries|] == entries;
  }

  lemma SearchOnlyEntry(net: Net, trusted: seq<Prefix>, value: string)
    requires ',' !in value
    ensures Search(net, trusted, value) == Candidate(net, trusted, value)
  {
    assert Split(value, ',') == [value];
    assert [value][..0] == [];
  }

  lemma CutAt(value: string, comma: nat, end: nat)
    requires comma < end <= |value|
    ensures value[..end] == value[..comma] + [value[comma]] + value[comma + 1..end]
  {
  }

  /** One turn of the scan, which stands before position `end` and found a comma. */
  lemma ScanStep(net: Net, trusted: seq<Prefix>, value: string, end: nat, comma: nat)
    requires comma < end <= |value| && value[comma] == ',' && ',' !in value[comma + 1..end]
    ensures var last := Candidate(net, trusted, value[comma + 1..end]);
            Search(net, trusted, value[..end]) == if last.Some? then last else Search(net, trusted, value[..comma])
  {
    CutAt(value, comma, end);
    SearchBackwards(net, trusted, value[..comma], value[comma + 1..end]);
  }

  lemma NothingInNothing(net: Net, trusted: seq<Prefix>, value: string)
    requires value == ""
    ensures Search(net, trusted, value) == None
  {
    SearchOnlyEntry(net, trusted, value);
  }

  // ---- the middleware ----

  method IsTrustedProxy(net: Net, ip: Addr, trusted: seq<Prefix>) returns (r: bool)
    ensures r == Trusted(net, ip, trusted)
  {
    for i := 0 to |trusted|
      invariant forall k :: 0 <= k < i ==> !net.contains(trusted[k], ip)
    {
      if net.contains(trusted[i], ip) {
        return true;
      }
    }
    return false;
  }

  method FirstUntrustedFromRight(net: Net, value: string, trusted: seq<Prefix>) returns (r: Option<Addr>)
    ensures r == Search(net, trusted, value)
  {
    var i := |value| - 1;
    assert value[..i + 1] == value;
    while i >= 0
      invariant -1 <= i < |value|
      invariant Search(net, trusted, value) == Search(net, trusted, value[..i + 1])
      decreases i
    {
      var end := i;
      var commaIdx := LastIndexByte(value[..i + 1], ',');
      var part;
      if commaIdx == -1 {
        SearchOnlyEntry(net, trusted, value[..end + 1]);
        part := TrimSpace(net.isSpace, value[..end + 1]);
        i := -1;
        NothingInNothing(net, trusted, value[..i + 1]);
      } else {
        assert value[..i + 1][commaIdx + 1..] == value[commaIdx + 1..i + 1];
        ScanStep(net, trusted, value, i + 1, commaIdx);
        part := TrimSpace(net.isSpace, value[commaIdx + 1..end + 1]);
        i := commaIdx - 1;
      }
      if part == "" {
        continue;
      }
      var ip := net.parseAddr(part);
      if ip.None? {
        continue;
      }
      var isTrusted := IsTrustedProxy(net, ip.value, trusted);
      if !isTrusted {
        return ip;
      }
    }
    NothingInNothing(net, trusted, value[..i + 1]);
    return None;
  }

  function RemoteAddr(net: Net, remoteAddr: string): Option<Addr> {
    if net.parseAddrPort(remoteAddr).Some? then net.parseAddrPort(remoteAddr) else net.parseAddr(remoteAddr)
  }

  /** An address with a port is read as such, and only a string that is none as a bare address. */
  lemma RemoteAddrByForm(net: Net, remoteAddr: string)
    ensures net.parseAddrPort(remoteAddr).Some? ==> RemoteAddr(net, remoteAddr) == net.parseAddrPort(remoteAddr)
    ensures net.parseAddrPort(remoteAddr).None? ==> RemoteAddr(net, remoteAddr) == net.parseAddr(remoteAddr)
  {
  }

  /** An untrusted peer is the client whatever the header says; the result is a trusted address only if the peer is
      trusted and the header names no untrusted one. */
  method ExtractClientIP(net: Net, remoteAddr: string, forwardedFor: string, trusted: seq<Prefix>)
    returns (r: Option<Addr>)
    ensures r.None? <==> RemoteAddr(net, remoteAddr).None?
    ensures r.None? <==> net.parseAddrPort(remoteAddr).None? && net.parseAddr(remoteAddr).None?
    ensures var peer := if net.parseAddrPort(remoteAddr).Some? then net.parseAddrPort(remoteAddr)
                        else net.parseAddr(remoteAddr);
            peer.Some? && (forall k :: 0 <= k < |trusted| ==> !net.contains(trusted[k], peer.value)) ==> r == peer
    ensures r.Some? && !Trusted(net, RemoteAddr(net, remoteAddr).value, trusted) ==> r == RemoteAddr(net, remoteAddr)
    ensures r.Some? && Trusted(net, RemoteAddr(net, remoteAddr).value, trusted)
            && Search(net, trusted, forwardedFor).Some?
            ==> r == Search(net, trusted, forwardedFor)
    ensures r.Some? ==> (Trusted(net, r.value, trusted) <==>
                         Trusted(net, RemoteAddr(net, remoteAddr).value, trusted)
                         && Search(net, trusted, forwardedFor).None?)
    ensures r.Some? && Trusted(net, r.value, trusted) ==> r == RemoteAddr(net, remoteAddr)
  {
    var remoteIP := RemoteAddr(net, remoteAddr);
    if remoteIP.None? {
      return None;
    }
    var isTrusted := IsTrustedProxy(net, remoteIP.value, trusted);
    if !isTrusted {
      return remoteIP;
    }
    var found := FirstUntrustedFromRight(net, forwardedFor, trusted);
    if found.Some? {
      return found;
    }
    return remoteIP;
  }

  /** The configured list: every entry parses, or the first that does not is reported. */
  method ParseCIDRList(net: Net, cidrs: seq<string>) returns (r: Result<seq<Prefix>, nat>)
    ensures r.Ok? ==> |r.value| == |cidrs|
    ensures r.Ok? ==> forall k :: 0 <= k < |cidrs| ==>
              net.parsePrefix(TrimSpace(net.isSpace, cidrs[k])).Some?
              && r.value[k] == net.masked(net.parsePrefix(TrimSpace(net.isSpace, cidrs[k])).value)
    ensures r.Err? ==> r.error < |cidrs| && net.parsePrefix(TrimSpace(net.isSpace, cidrs[r.error])).None?
                       && forall k :: 0 <= k < r.error ==> net.parsePrefix(TrimSpace(net.isSpace, cidrs[k])).Some?
  {
    var out: seq<Prefix> := [];
    for i := 0 to |cidrs|
      invariant |out| == i
      invariant forall k :: 0 <= k < i ==>
                  net.parsePrefix(TrimSpace(net.isSpace, cidrs[k])).Some?
                  && out[k] == net.masked(net.parsePrefix(TrimSpace(net.isSpace, cidrs[k])).value)
    {
      var prefix := net.parsePrefix(TrimSpace(net.isSpace, cidrs[i]));
      if prefix.None? {
        return Err(i);
      }
      out := out + [net.masked(prefix.value)];
    }
    return Ok(out);
  }
}
