/** The contents of the published files: links deduplicated, sorted, split by protocol and rendered. */
module LinkFiles {
  import opened Base

  // ----- sets of links and their sorted lists -----

  ghost predicate NoDuplicates(s: seq<Bytes>) {
    forall i, j :: 0 <= i < j < |s| ==> s[i] != s[j]
  }

  /** The sorted list of a set of links. */
  ghost predicate Lists(s: seq<Bytes>, links: set<Bytes>) {
    Sorted(LexLess, s) && NoDuplicates(s) && forall l :: l in links <==> l in s
  }

  lemma LexLessOrders()
    ensures StrictWeakOrder(LexLess)
  {
    forall x: Bytes, y: Bytes, z: Bytes
      ensures !LexLess(x, x) && (LexLess(x, y) && LexLess(y, z) ==> LexLess(x, z))
      ensures LexLess(x, z) ==> LexLess(x, y) || LexLess(y, z)
    {
      LexTotal(x, y);
      LexTotal(y, z);
      LexTotal(x, z);
      if LexLess(x, y) && LexLess(y, z) {
        LexTransitive(x, y, z);
      }
      if LexLess(x, z) && LexLess(y, x) {
        LexTransitive(y, x, z);
      }
    }
  }

  lemma {:induction false} CountOnce(s: seq<Bytes>, l: Bytes)
    requires NoDuplicates(s)
    ensures multiset(s)[l] == if l in s then 1 else 0
  {
    if s != [] {
      CountOnce(s[1..], l);
      assert s == [s[0]] + s[1..];
      assert s[0] !in s[1..];
    }
  }

  function Same(l: Bytes): Bytes {
    l
  }

  lemma {:induction false} MapSame(s: seq<Bytes>)
    ensures MapSeq(Same, s) == s
  {
  }

  /** A set of links has one sorted list. */
  lemma ListUnique(a: seq<Bytes>, b: seq<Bytes>, links: set<Bytes>)
    requires Lists(a, links) && Lists(b, links)
    ensures a == b
  {
    forall l ensures multiset(a)[l] == multiset(b)[l] {
      CountOnce(a, l);
      CountOnce(b, l);
    }
    LexLessOrders();
    forall x, y | x in b && y in b && !LexLess(x, y) && !LexLess(y, x) ensures Same(x) == Same(y) {
      LexTotal(x, y);
    }
    SortedUnique(LexLess, Same, a, b);
    MapSame(a);
    MapSame(b);
  }

  // ----- protocols -----

  datatype Protocol = Vless | Vmess | Trojan

  function Scheme(p: Protocol): Bytes {
    match p
    case Vless => "vless://"
    case Vmess => "vmess://"
    case Trojan => "trojan://"
  }

  predicate HasScheme(l: Bytes, p: Protocol) {
    Scheme(p) <= l
  }

  /** The links of one protocol, in the order they are listed. */
  function OfProtocol(s: seq<Bytes>, p: Protocol): seq<Bytes> {
    if s == [] then []
    else OfProtocol(s[..|s|-1], p) + if HasScheme(s[|s|-1], p) then [s[|s|-1]] else []
  }

  /** A sorted list without its last link, which nothing in the list follows. */
  lemma ListsInit(s: seq<Bytes>, links: set<Bytes>)
    requires Lists(s, links) && s != []
    ensures var last := s[|s|-1];
            Lists(s[..|s|-1], links - {last}) && last in links && forall l :: l in links ==> !LexLess(last, l)
  {
    var init, last := s[..|s|-1], s[|s|-1];
    assert s == init + [last];
    forall l | l in links ensures !LexLess(last, l) {
      var i :| 0 <= i < |s| && s[i] == l;
      LexTotal(last, last);
      assert i < |s| - 1 ==> !LexLess(s[|s|-1], s[i]);
    }
    assert last !in init;
  }

  lemma ListsAppended(s: seq<Bytes>, links: set<Bytes>, last: Bytes)
    requires Lists(s, links) && last !in links && forall l :: l in links ==> !LexLess(last, l)
    ensures Lists(s + [last], links + {last})
  {
    forall i | 0 <= i < |s| ensures s[i] in links {
      assert s[i] in s;
    }
  }

  /** The protocol lists are disjoint parts of the whole list that keep its order: each is the sorted
      list of exactly the links of its protocol. */
  lemma {:induction false} ProtocolLists(s: seq<Bytes>, links: set<Bytes>, p: Protocol)
    requires Lists(s, links)
    ensures Lists(OfProtocol(s, p), set l | l in links && HasScheme(l, p))
  {
    hide HasScheme;
    if s == [] {
      assert (set l | l in links && HasScheme(l, p)) == {};
    } else {
      hide Lists;
      var init, last := s[..|s|-1], s[|s|-1];
      var earlier := set l | l in links - {last} && HasScheme(l, p);
      ListsInit(s, links);
      ProtocolLists(init, links - {last}, p);
      if HasScheme(last, p) {
        ListsAppended(OfProtocol(init, p), earlier, last);
        assert (set l | l in links && HasScheme(l, p)) == earlier + {last};
      } else {
        assert (set l | l in links && HasScheme(l, p)) == earlier;
      }
    }
  }

  // ----- partitioning -----

  /** What partitionLinks keeps of the raw links: trimmed, and not empty. */
  function Kept(trim: Bytes -> Bytes, raw: seq<Bytes>): set<Bytes> {
    set l | l in raw && trim(l) != "" :: trim(l)
  }

  method SortLinks(s: seq<Bytes>) returns (r: seq<Bytes>)
    ensures Sorted(LexLess, r) && multiset(r) == multiset(s)
  {
    LexLessOrders();
    SortBySorts(LexLess, s);
    r := SortBy(LexLess, s);
  }

  lemma RearrangedLists(s: seq<Bytes>, r: seq<Bytes>, links: set<Bytes>)
    requires NoDuplicates(s) && (forall l :: l in links <==> l in s) && Sorted(LexLess, r) && multiset(r) == multiset(s)
    ensures Lists(r, links)
  {
    forall l ensures l in r <==> l in s {
      assert l in multiset(r) <==> l in multiset(s);
    }
    forall i, j | 0 <= i < j < |r| ensures r[i] != r[j] {
      CountOnce(s, r[j]);
      assert r == r[..j] + ([r[j]] + r[j+1..]);
      assert r[i] in r[..j];
      assert r[i] in multiset(r[..j]);
    }
  }

  method PartitionLinks(trim: Bytes -> Bytes, raw: seq<Bytes>)
    returns (all: seq<Bytes>, vless: seq<Bytes>, vmess: seq<Bytes>, trojan: seq<Bytes>)
    ensures Lists(all, Kept(trim, raw))
    ensures vless == OfProtocol(all, Vless) && vmess == OfProtocol(all, Vmess) && trojan == OfProtocol(all, Trojan)
  {
    var seen: set<Bytes> := {};
    var unique: seq<Bytes> := [];
    for i := 0 to |raw|
      invariant seen == Kept(trim, raw[..i]) && NoDuplicates(unique) && forall l :: l in seen <==> l in unique
    {
      assert raw[..i+1] == raw[..i] + [raw[i]];
      var link := trim(raw[i]);
      if link != "" && link !in seen {
        seen := seen + {link};
        unique := unique + [link];
      }
    }
    assert raw[..|raw|] == raw;
    all := SortLinks(unique);
    RearrangedLists(unique, all, Kept(trim, raw));
    vless, vmess, trojan := [], [], [];
    for i := 0 to |all|
      invariant vless == OfProtocol(all[..i], Vless)
      invariant vmess == OfProtocol(all[..i], Vmess)
      invariant trojan == OfProtocol(all[..i], Trojan)
    {
      var link := all[i];
      assert all[..i+1][..i] == all[..i];
      OneScheme(link);
      if HasScheme(link, Vless) {
        vless := vless + [link];
      } else if HasScheme(link, Vmess) {
        vmess := vmess + [link];
      } else if HasScheme(link, Trojan) {
        trojan := trojan + [link];
      }
    }
    assert all[..|all|] == all;
  }

  lemma OneScheme(l: Bytes)
    ensures !(HasScheme(l, Vless) && HasScheme(l, Vmess))
    ensures !(HasScheme(l, Vless) && HasScheme(l, Trojan))
    ensures !(HasScheme(l, Vmess) && HasScheme(l, Trojan))
  {
    assert HasScheme(l, Vless) ==> l[1] == Scheme(Vless)[1] == 'l';
    assert HasScheme(l, Vmess) ==> l[1] == Scheme(Vmess)[1] == 'm';
    assert HasScheme(l, Trojan) ==> l[1] == Scheme(Trojan)[1] == 'r';
  }

  /** The lists depend on the set of links only, not on their order or repetition. */
  lemma PartitionDependsOnSet(trim: Bytes -> Bytes, raw: seq<Bytes>, raw': seq<Bytes>, all: seq<Bytes>,
                              all': seq<Bytes>)
    requires (forall l :: l in raw <==> l in raw') && Lists(all, Kept(trim, raw)) && Lists(all', Kept(trim, raw'))
    ensures all == all'
  {
    assert Kept(trim, raw) == Kept(trim, raw');
    ListUnique(all, all', Kept(trim, raw));
  }

  // ----- rendering -----

  /** renderList: one link per line. */
  function RenderList(links: seq<Bytes>): Bytes {
    if links == [] then "" else links[0] + ("\n" + RenderList(links[1..]))
  }

  /** The lines of a text that ends with a newline. */
  function Lines(text: Bytes): seq<Bytes> {
    if '\n' in text then var n := FirstNewline(text); [text[..n]] + Lines(text[n+1..]) else []
  }

  function FirstNewline(text: Bytes): (n: nat)
    requires '\n' in text
    ensures n < |text| && text[n] == '\n' && '\n' !in text[..n]
  {
    if text[0] == '\n' then 0 else 1 + FirstNewline(text[1..])
  }

  lemma {:induction false} FirstNewlineAt(a: Bytes, b: Bytes)
    requires '\n' !in a
    ensures FirstNewline(a + ("\n" + b)) == |a|
  {
    var text := a + ("\n" + b);
    assert text[|a|] == '\n';
    if a != "" {
      assert text[0] == a[0] && a[0] in a;
      assert text[1..] == a[1..] + ("\n" + b);
      FirstNewlineAt(a[1..], b);
    }
  }

  /** A rendered file determines its links. */
  lemma {:induction false} RenderedLines(links: seq<Bytes>)
    requires forall i :: 0 <= i < |links| ==> '\n' !in links[i]
    ensures Lines(RenderList(links)) == links
  {
    if links != [] {
      var rest := RenderList(links[1..]);
      var text := links[0] + ("\n" + rest);
      FirstNewlineAt(links[0], rest);
      assert text[..|links[0]|] == links[0] && text[|links[0]|+1..] == rest;
      RenderedLines(links[1..]);
    }
  }
}
