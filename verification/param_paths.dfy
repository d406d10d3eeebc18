/**
 * How a bracketed form-field name such as `filters[user][name][type]` is read
 * back as a path of nested keys, `["filters", "user", "name", "type"]`, when
 * the form is submitted. This is the reading under which the names the view
 * helpers write arrive where `build_conditions` looks for them; it covers
 * names made of plain segments, which is all the view helpers produce.
 */
module ParamPaths {
  import opened Wrappers

  /** The position of the first `c` in `s`, or `|s|` when there is none. */
  function IndexOf(s: string, c: char): (r: nat)
    ensures r <= |s|
    ensures r < |s| ==> s[r] == c
  {
    if s == [] then 0
    else if s[0] == c then 0
    else 1 + IndexOf(s[1..], c)
  }

  /** A name segment that holds no bracket. */
  predicate Plain(s: string) {
    '[' !in s && ']' !in s
  }

  /** Reads `[a][b]...` as `["a", "b", ...]`; anything else is not a list of segments. */
  function Segments(s: string): Option<seq<string>>
    decreases |s|
  {
    if s == [] then Some([])
    else if s[0] != '[' then None
    else
      var j := 1 + IndexOf(s[1..], ']');
      if j == |s| then None
      else
        match Segments(s[j + 1..])
        case None => None
        case Some(rest) => Some([s[1..j]] + rest)
  }

  /** Reads `head[a][b]...` as `["head", "a", "b", ...]`. */
  function ParamPath(name: string): Option<seq<string>> {
    var i := IndexOf(name, '[');
    match Segments(name[i..])
    case None => None
    case Some(segments) => Some([name[..i]] + segments)
  }

  /** The first `c` of `p + [c] + s` is the one after `p` when `p` holds none. */
  lemma {:induction false} FirstAfterPrefix(p: string, c: char, s: string)
    requires c !in p
    ensures IndexOf(p + [c] + s, c) == |p|
    decreases |p|
  {
    if p == [] {
      assert p + [c] + s == [c] + s;
    } else {
      assert p[0] != c;
      assert (p + [c] + s)[1..] == p[1..] + [c] + s;
      FirstAfterPrefix(p[1..], c, s);
    }
  }

  /** A bracketed plain segment in front of the rest of a name is read off as one segment. */
  lemma SegmentsCons(segment: string, rest: string)
    requires Plain(segment)
    ensures Segments("[" + segment + "]" + rest) ==
              match Segments(rest)
              case None => None
              case Some(more) => Some([segment] + more)
  {
    var s := "[" + segment + "]" + rest;
    assert s[1..] == segment + [']'] + rest;
    FirstAfterPrefix(segment, ']', rest);
    var j := 1 + |segment|;
    assert s[1..j] == segment;
    assert s[j + 1..] == rest;
  }

  /** The first `[` of a plain head followed by a bracketed rest is where the rest begins. */
  lemma HeadEnds(head: string, rest: string)
    requires Plain(head)
    requires |rest| > 0 && rest[0] == '['
    ensures IndexOf(head + rest, '[') == |head|
  {
    assert head + rest == head + ['['] + rest[1..];
    FirstAfterPrefix(head, '[', rest[1..]);
  }

  /** A plain head followed by bracketed segments is read as the head and those segments. */
  lemma ParamPathCons(head: string, rest: string)
    requires Plain(head)
    requires |rest| > 0 && rest[0] == '['
    ensures ParamPath(head + rest) ==
              match Segments(rest)
              case None => None
              case Some(segments) => Some([head] + segments)
  {
    var name := head + rest;
    HeadEnds(head, rest);
    assert name[..|head|] == head;
    assert name[|head|..] == rest;
  }
}
