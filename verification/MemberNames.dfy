/**
  Names and peer URLs of etcd members: pkg/util/k8sutil/k8sutil.go prints a
  member name, pkg/util/etcdutil/member.go prints its peer URL and reads the name
  back from the URLs that etcd reports.
 */
module MemberNames {
  import opened Wrappers

  const SUFFIX_LENGTH := 10
  const MAX_NAME_LENGTH := 63 - SUFFIX_LENGTH - 1

  /* ---------- printing ---------- */

  function Cut(prefix: string): string {
    if |prefix| > MAX_NAME_LENGTH then prefix[..MAX_NAME_LENGTH] else prefix
  }

  /** `UniqueMemberName`; the random suffix is a parameter. */
  function UniqueMemberName(prefix: string, suffix: string): string {
    Cut(prefix) + ("-" + suffix)
  }

  /** `strings.LastIndex` for one character. */
  function LastIndex(s: string, c: char): (i: int)
    ensures -1 <= i < |s|
    ensures i >= 0 ==> s[i] == c
    ensures forall j | i < j < |s| :: s[j] != c
  {
    if s == "" then -1
    else if s[|s| - 1] == c then |s| - 1
    else LastIndex(s[..|s| - 1], c)
  }

  /** `clusterNameFromMemberName`: None where the source panics. */
  function ClusterName(name: string): Option<string> {
    var i := LastIndex(name, '-');
    if i == -1 then None else Some(name[..i])
  }

  function Scheme(secure: bool): string {
    if secure then "https" else "http"
  }

  /** `PeerURL`: the DNS name of the member's pod under the cluster's headless service. */
  function PeerUrl(secure: bool, name: string, namespace: string): Option<string> {
    var cluster := ClusterName(name);
    if cluster.None? then None
    else Some(Scheme(secure) + ("://" + (name + ("." + cluster.value + "." + namespace + ".svc") + ":2380")))
  }

  /* ---------- reading ---------- */

  predicate IsDigit(c: char) {
    '0' <= c <= '9'
  }

  predicate IsLetter(c: char) {
    'a' <= c <= 'z' || 'A' <= c <= 'Z'
  }

  /** `\w` */
  predicate IsWord(c: char) {
    IsLetter(c) || IsDigit(c) || c == '_'
  }

  /** `[\w\-]`: the characters of a DNS label, and the underscore. */
  predicate IsLabel(c: char) {
    IsWord(c) || c == '-'
  }

  /** `[\w\.\-]` */
  predicate IsHost(c: char) {
    IsLabel(c) || c == '.'
  }

  predicate All(s: string, p: char -> bool) {
    forall i | 0 <= i < |s| :: p(s[i])
  }

  /** Length of the longest prefix made of `p` characters. */
  function Span(s: string, p: char -> bool): (k: nat)
    ensures k <= |s|
    ensures forall i | 0 <= i < k :: p(s[i])
    ensures k < |s| ==> !p(s[k])
  {
    if s == "" || !p(s[0]) then 0 else 1 + Span(s[1..], p)
  }

  predicate ValidPort(s: string) {
    s == "" || (|s| >= 2 && s[0] == ':' && Span(s[1..], IsDigit) == |s| - 1)
  }

  /** The host part of a URL that matches `^\w+:\/\/[\w\.\-]+(:\d+)?$` and that `url.Parse` takes. */
  function HostOf(url: string): Option<string> {
    var i := Span(url, IsWord);
    if i == 0 || |url| < i + 3 || url[i..i + 3] != "://" then None
    else if !IsLetter(url[0]) || exists j | 0 <= j < i :: url[j] == '_' then None
    else
      var rest := url[i + 3..];
      var j := Span(rest, IsHost);
      if j == 0 || !ValidPort(rest[j..]) then None else Some(rest[..j])
  }

  /** `MemberNameFromPeerURL`: the first label of the host. */
  function NameFromPeerUrl(url: string): Option<string> {
    var host := HostOf(url);
    if host.None? then None else Some(host.value[..Span(host.value, IsLabel)])
  }

  /* ---------- round trips ---------- */

  lemma {:induction false} SpanConcat(a: string, b: string, p: char -> bool)
    requires All(a, p) && (b == "" || !p(b[0]))
    ensures Span(a + b, p) == |a|
  {
    if a == "" {
      assert a + b == b;
    } else {
      assert (a + b)[1..] == a[1..] + b;
      SpanConcat(a[1..], b, p);
    }
  }

  lemma {:induction false} LastIndexIs(a: string, c: char, b: string)
    requires c !in b
    ensures LastIndex(a + ([c] + b), c) == |a|
    decreases |b|
  {
    var s := a + ([c] + b);
    if b != "" {
      var shorter := b[..|b| - 1];
      assert s[..|s| - 1] == a + ([c] + shorter);
      LastIndexIs(a, c, shorter);
    }
  }

  /** A generated name fits in a DNS label, and its cluster part is the prefix cut to 52 characters. */
  lemma GeneratedName(prefix: string, suffix: string)
    requires |suffix| == SUFFIX_LENGTH && '-' !in suffix
    ensures |UniqueMemberName(prefix, suffix)| <= 63
    ensures Cut(prefix) <= prefix && (Cut(prefix) != prefix ==> |UniqueMemberName(prefix, suffix)| == 63)
    ensures ClusterName(UniqueMemberName(prefix, suffix)) == Some(Cut(prefix))
  {
    var name := UniqueMemberName(prefix, suffix);
    LastIndexIs(Cut(prefix), '-', suffix);
    assert name[..|Cut(prefix)|] == Cut(prefix);
  }

  lemma PeerPortIsValid()
    ensures ValidPort(":2380")
  {
    assert "2380" == "2380" + "";
    SpanConcat("2380", "", IsDigit);
    assert ":2380"[1..] == "2380";
  }

  /** `HostOf` on a URL that is put together from its parts. */
  lemma HostOfParts(secure: bool, rest: string)
    ensures var j := Span(rest, IsHost);
      HostOf(Scheme(secure) + ("://" + rest)) == if j == 0 || !ValidPort(rest[j..]) then None else Some(rest[..j])
  {
    SchemeFacts(secure);
    hide ValidPort, Scheme, IsWord, IsLetter, IsHost, Span;
    var scheme := Scheme(secure);
    var url := scheme + ("://" + rest);
    SpanConcat(scheme, "://" + rest, IsWord);
    assert url[|scheme|..|scheme| + 3] == "://";
    assert url[|scheme| + 3..] == rest;
    assert url[0] == scheme[0] && forall j | 0 <= j < |scheme| :: url[j] == scheme[j];
  }

  lemma SchemeFacts(secure: bool)
    ensures var scheme := Scheme(secure);
      scheme != "" && All(scheme, IsWord) && IsLetter(scheme[0]) && '_' !in scheme && !IsWord(':')
  {
  }

  /** Two colons leave no port of digits only. */
  lemma NoPortBefore(s: string)
    ensures !ValidPort(":" + (s + ":2380"))
  {
    var port := s + ":2380";
    assert port[|s|] == ':' && !IsDigit(':');
    assert (":" + port)[1..] == port;
  }

  /** Another character in the host ends it, and what follows is no port. */
  lemma StopsInHost(host: string)
    requires !All(host, IsHost)
    ensures var rest := host + ":2380"; !ValidPort(rest[Span(rest, IsHost)..])
  {
    hide IsHost;
    var rest := host + ":2380";
    var j := Span(rest, IsHost);
    var k :| 0 <= k < |host| && !IsHost(host[k]);
    assert rest[k] == host[k];
    var after := host[j + 1..];
    assert rest[j..] == [host[j]] + (after + ":2380");
    NoPortBefore(after);
  }

  /** A printed URL is accepted exactly when its host is made of host characters, and then gives the host back. */
  lemma HostOfPrinted(secure: bool, host: string)
    requires host != ""
    ensures HostOf(Scheme(secure) + ("://" + (host + ":2380"))) == if All(host, IsHost) then Some(host) else None
  {
    hide HostOf;
    var rest := host + ":2380";
    HostOfParts(secure, rest);
    if All(host, IsHost) {
      SpanConcat(host, ":2380", IsHost);
      PeerPortIsValid();
      assert rest[..|host|] == host && rest[|host|..] == ":2380";
    } else {
      StopsInHost(host);
    }
  }

  /** Peer URLs are read back up to the first dot of the name. */
  lemma PeerUrlReadsBack(secure: bool, name: string, namespace: string)
    requires '-' in name && All(name, IsHost) && All(namespace, IsHost)
    ensures PeerUrl(secure, name, namespace).Some?
    ensures NameFromPeerUrl(PeerUrl(secure, name, namespace).value) == Some(name[..Span(name, IsLabel)])
  {
    hide HostOf, LastIndex, Scheme, Span;
    var i := LastIndex(name, '-');
    assert i >= 0;
    var tail := "." + name[..i] + "." + namespace + ".svc";
    var host := name + tail;
    assert All(tail, IsHost) && All(host, IsHost);
    HostOfPrinted(secure, host);
    FirstLabel(name, tail);
  }

  lemma DotIsNoLabel()
    ensures !IsLabel('.')
  {
  }

  lemma FirstLabel(name: string, tail: string)
    requires tail != "" && tail[0] == '.'
    ensures Span(name + tail, IsLabel) == Span(name, IsLabel)
    ensures (name + tail)[..Span(name, IsLabel)] == name[..Span(name, IsLabel)]
  {
    hide IsLabel;
    assert !IsLabel('.') by {
      DotIsNoLabel();
    }
    var k := Span(name, IsLabel);
    var rest := name[k..] + tail;
    assert name + tail == name[..k] + rest;
    SpanConcat(name[..k], rest, IsLabel);
  }

  lemma PeerHost(secure: bool, name: string, namespace: string) returns (tail: string)
    requires '-' in name
    ensures PeerUrl(secure, name, namespace) == Some(Scheme(secure) + ("://" + ((name + tail) + ":2380")))
    ensures All(tail, IsHost) ==> All(namespace, IsHost)
  {
    hide Scheme, LastIndex, IsHost;
    var i := LastIndex(name, '-');
    tail := "." + name[..i] + "." + namespace + ".svc";
    var before := "." + name[..i] + ".";
    assert tail == before + (namespace + ".svc");
    AllParts(before, namespace + ".svc", IsHost);
    AllParts(namespace, ".svc", IsHost);
  }

  lemma AllParts(a: string, b: string, p: char -> bool)
    ensures All(a + b, p) <==> All(a, p) && All(b, p)
  {
    assert forall i | 0 <= i < |a| :: (a + b)[i] == a[i];
    assert forall i | 0 <= i < |b| :: (a + b)[|a| + i] == b[i];
  }

  /**
    A member has a peer URL exactly when its name has a dash, and the name is recovered
    from it exactly when it is one DNS label and the namespace is made of host characters.
   */
  lemma PeerUrlRoundTripIff(secure: bool, name: string, namespace: string)
    ensures PeerUrl(secure, name, namespace).Some? <==> '-' in name
    ensures '-' in name ==>
      (NameFromPeerUrl(PeerUrl(secure, name, namespace).value) == Some(name)
       <==> All(name, IsLabel) && All(namespace, IsHost))
  {
    hide HostOf, Scheme, LastIndex;
    if '-' in name {
      var tail := PeerHost(secure, name, namespace);
      var host := name + tail;
      HostOfPrinted(secure, host);
      if All(name, IsHost) && All(namespace, IsHost) {
        PeerUrlReadsBack(secure, name, namespace);
        var k := Span(name, IsLabel);
        if k == |name| {
          assert name[..k] == name;
        }
      } else {
        AllParts(name, tail, IsHost);
      }
    }
  }

  /**
    The peer URL names the member's pod, the cluster's service, the namespace and the
    peer port, in this order, and is https exactly for a secure member.
   */
  lemma PeerUrlParts(secure: bool, cluster: string, suffix: string, namespace: string)
    requires '-' !in suffix && All(cluster, IsHost) && All(suffix, IsHost) && All(namespace, IsHost)
    ensures var name := cluster + ("-" + suffix);
      var host := name + ("." + (cluster + ("." + (namespace + ".svc"))));
      PeerUrl(secure, name, namespace) == Some((if secure then "https://" else "http://") + (host + ":2380"))
      && HostOf(PeerUrl(secure, name, namespace).value) == Some(host)
  {
    hide HostOf, LastIndex, IsHost;
    var name := cluster + ("-" + suffix);
    LastIndexIs(cluster, '-', suffix);
    assert name[..|cluster|] == cluster;
    var tail := "." + (cluster + ("." + (namespace + ".svc")));
    assert "." + cluster + "." + namespace + ".svc" == tail;
    AllHost(cluster, suffix, namespace);
    HostOfPrinted(secure, name + tail);
    SchemeIs(secure, (name + tail) + ":2380");
  }

  lemma AllHost(cluster: string, suffix: string, namespace: string)
    requires All(cluster, IsHost) && All(suffix, IsHost) && All(namespace, IsHost)
    ensures All((cluster + ("-" + suffix)) + ("." + (cluster + ("." + (namespace + ".svc")))), IsHost)
  {
    AllParts("-", suffix, IsHost);
    AllParts(cluster, "-" + suffix, IsHost);
    AllParts(namespace, ".svc", IsHost);
    AllParts(".", namespace + ".svc", IsHost);
    AllParts(cluster, "." + (namespace + ".svc"), IsHost);
    AllParts(".", cluster + ("." + (namespace + ".svc")), IsHost);
    AllParts(cluster + ("-" + suffix), "." + (cluster + ("." + (namespace + ".svc"))), IsHost);
  }

  lemma SchemeIs(secure: bool, rest: string)
    ensures Scheme(secure) + ("://" + rest) == (if secure then "https://" else "http://") + rest
  {
  }

  /** So distinct members have distinct peer URLs. */
  lemma DistinctPeerUrls(secure: bool, a: string, b: string, namespace: string)
    requires '-' in a && '-' in b && All(a, IsLabel) && All(b, IsLabel) && All(namespace, IsHost) && a != b
    ensures PeerUrl(secure, a, namespace) != PeerUrl(secure, b, namespace)
  {
    hide PeerUrl, NameFromPeerUrl;
    PeerUrlRoundTripIff(secure, a, namespace);
    PeerUrlRoundTripIff(secure, b, namespace);
  }

  /** A name whose prefix has a dot is read back as what precedes the dot. */
  lemma DottedNameReadsBack(secure: bool, cut: string, suffix: string, namespace: string)
    requires '.' in cut && All(cut, IsHost) && All(suffix, IsLabel) && All(namespace, IsHost)
    ensures var url := PeerUrl(secure, cut + ("-" + suffix), namespace);
      url.Some? && NameFromPeerUrl(url.value) == Some(cut[..Span(cut, IsLabel)])
  {
    hide PeerUrl, NameFromPeerUrl;
    var k := Span(cut, IsLabel);
    var name := cut + ("-" + suffix);
    assert name[|cut|] == '-';
    PeerUrlReadsBack(secure, name, namespace);
    var rest := cut[k..] + ("-" + suffix);
    assert name == cut[..k] + rest;
    SpanConcat(cut[..k], rest, IsLabel);
    assert name[..k] == cut[..k];
  }

  /** A cluster whose name has a dot: all its members are read back under one and the same name. */
  lemma DottedMembersCollapse(secure: bool, prefix: string, s: string, t: string, namespace: string)
    requires '.' in Cut(prefix) && All(prefix, IsHost) && All(s, IsLabel) && All(t, IsLabel) && All(namespace, IsHost)
    ensures var a := PeerUrl(secure, UniqueMemberName(prefix, s), namespace);
      var b := PeerUrl(secure, UniqueMemberName(prefix, t), namespace);
      a.Some? && b.Some? && NameFromPeerUrl(a.value) == NameFromPeerUrl(b.value)
  {
    hide PeerUrl, NameFromPeerUrl;
    DottedNameReadsBack(secure, Cut(prefix), s, namespace);
    DottedNameReadsBack(secure, Cut(prefix), t, namespace);
  }

  /** A generated member is recovered from its peer URL iff the used part of the prefix is made of label characters. */
  lemma GeneratedMemberRoundTripIff(secure: bool, prefix: string, suffix: string, namespace: string)
    requires |suffix| == SUFFIX_LENGTH && All(suffix, IsWord)
    ensures var name := UniqueMemberName(prefix, suffix);
      && PeerUrl(secure, name, namespace).Some?
      && (NameFromPeerUrl(PeerUrl(secure, name, namespace).value) == Some(name)
          <==> All(Cut(prefix), IsLabel) && All(namespace, IsHost))
  {
    hide PeerUrl, NameFromPeerUrl;
    var cut := Cut(prefix);
    var name := UniqueMemberName(prefix, suffix);
    assert name[|cut|] == '-';
    assert forall i | 0 <= i < |cut| :: name[i] == cut[i];
    assert forall i | |cut| < i < |name| :: name[i] == suffix[i - |cut| - 1];
    PeerUrlRoundTripIff(secure, name, namespace);
  }

  /**
    The loop of `updateMembers`: it fails if some URL does not parse, and builds
    the member set from the names it reads. For URLs that were printed for
    distinct DNS-label names it rebuilds exactly those names with their IDs.
   */
  method MembersFromUrls(urls: seq<string>, ids: seq<nat>, ghost names: seq<string>)
    returns (r: Option<map<string, nat>>)
    requires |urls| == |ids| == |names|
    ensures r.Some? <==> forall i | 0 <= i < |urls| :: NameFromPeerUrl(urls[i]).Some?
    ensures (forall i | 0 <= i < |urls| :: NameFromPeerUrl(urls[i]) == Some(names[i]))
            && (forall i, j | 0 <= i < j < |names| :: names[i] != names[j])
            ==> r.Some?
                && (forall n :: n in r.value <==> n in names)
                && (forall i | 0 <= i < |names| :: r.value[names[i]] == ids[i])
  {
    hide NameFromPeerUrl;
    var members: map<string, nat> := map[];
    for k := 0 to |urls|
      invariant forall i | 0 <= i < k :: NameFromPeerUrl(urls[i]).Some?
      invariant forall i | 0 <= i < k :: NameFromPeerUrl(urls[i]).value in members
      invariant forall n | n in members :: exists i :: 0 <= i < k && NameFromPeerUrl(urls[i]) == Some(n)
      invariant forall i | 0 <= i < k
                  && (forall j | i < j < k :: NameFromPeerUrl(urls[j]) != NameFromPeerUrl(urls[i])) ::
                  members[NameFromPeerUrl(urls[i]).value] == ids[i]
    {
      var name := NameFromPeerUrl(urls[k]);
      if name.None? {
        return None;
      }
      members := members[name.value := ids[k]];
    }
    r := Some(members);
  }
}
