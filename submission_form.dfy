/**
  The checks and normalisation the idea form performs before it calls
  `submitIdea`: title, description and category must not be blank and are sent
  trimmed; the tag field is split on commas, each piece is trimmed and empty
  pieces are dropped. Whitespace is a fixed set of six characters.
 */
module SubmissionForm {
  import opened Wrappers

  predicate IsSpace(c: char) {
    c == ' ' || c == '\t' || c == '\n' || c == '\r' || c == '\U{000B}' || c == '\U{000C}'
  }

  ghost predicate AllSpace(s: string) {
    forall i :: 0 <= i < |s| ==> IsSpace(s[i])
  }

  ghost predicate SpaceIn(s: string, lo: nat, hi: nat)
    requires lo <= hi <= |s|
  {
    forall k :: lo <= k < hi ==> IsSpace(s[k])
  }

  /** Neither the first nor the last character is whitespace. */
  ghost predicate Trimmed(s: string) {
    s == [] || (!IsSpace(s[0]) && !IsSpace(s[|s| - 1]))
  }

  /** The position of the first non-whitespace character at or after `lo`, or `|s|`. */
  function SkipStart(s: string, lo: nat): (r: nat)
    requires lo <= |s|
    ensures lo <= r <= |s| && SpaceIn(s, lo, r)
    ensures r == |s| || !IsSpace(s[r])
    decreases |s| - lo
  {
    if lo < |s| && IsSpace(s[lo]) then SkipStart(s, lo + 1) else lo
  }

  /** The end of `s[lo..hi]` once its trailing whitespace is cut off. */
  function SkipEnd(s: string, lo: nat, hi: nat): (r: nat)
    requires lo <= hi <= |s|
    ensures lo <= r <= hi && SpaceIn(s, r, hi)
    ensures r == lo || !IsSpace(s[r - 1])
  {
    if lo < hi && IsSpace(s[hi - 1]) then SkipEnd(s, lo, hi - 1) else hi
  }

  /**
    `String.prototype.trim`: the part of `s` between its leading and trailing
    whitespace. It is empty exactly when `s` is all whitespace.
   */
  function Trim(s: string): (r: string)
    ensures Trimmed(r)
    ensures exists lo, hi :: 0 <= lo <= hi <= |s| && r == s[lo..hi] && SpaceIn(s, 0, lo) && SpaceIn(s, hi, |s|)
    ensures r == [] <==> AllSpace(s)
  {
    var lo := SkipStart(s, 0);
    var hi := SkipEnd(s, lo, |s|);
    s[lo..hi]
  }

  /** Trimming twice is trimming once. */
  lemma TrimIdempotent(s: string)
    ensures Trim(Trim(s)) == Trim(s)
  {
  }

  /** The number of occurrences of `c` in `s`. */
  function Count(s: string, c: char): nat {
    if s == [] then 0 else (if s[0] == c then 1 else 0) + Count(s[1..], c)
  }

  /** The pieces joined back together with `sep` between consecutive ones. */
  function Join(parts: seq<string>, sep: char): string
    requires |parts| >= 1
  {
    if |parts| == 1 then parts[0] else parts[0] + [sep] + Join(parts[1..], sep)
  }

  /**
    `String.prototype.split(sep)`: the maximal `sep`-free pieces of `s`, in
    order; there is always at least one.
   */
  function Split(s: string, sep: char): (r: seq<string>)
    ensures |r| >= 1
  {
    if s == [] then [""]
    else
      var rest := Split(s[1..], sep);
      if s[0] == sep then [""] + rest
      else [[s[0]] + rest[0]] + rest[1..]
  }

  /** There is one more piece than there are separators, and no piece holds a separator. */
  lemma {:induction false} SplitPieces(s: string, sep: char)
    ensures |Split(s, sep)| == Count(s, sep) + 1
    ensures forall k :: 0 <= k < |Split(s, sep)| ==> sep !in Split(s, sep)[k]
  {
    if s != [] {
      SplitPieces(s[1..], sep);
      var rest := Split(s[1..], sep);
      if s[0] != sep {
        var r := [[s[0]] + rest[0]] + rest[1..];
        assert forall k :: 1 <= k < |r| ==> r[k] == rest[k];
      }
    }
  }

  /** A string without separators is one piece. */
  lemma SplitNoSeparator(s: string, sep: char)
    requires sep !in s
    ensures Split(s, sep) == [s]
  {
    if s != [] {
      SplitNoSeparator(s[1..], sep);
      assert [s[0]] + s[1..] == s;
    }
  }

  /** The pieces of `[c] + t`, given the pieces `pieces` of `t`. */
  function ConsPiece(c: char, pieces: seq<string>, sep: char): seq<string>
    requires |pieces| >= 1
  {
    if c == sep then [""] + pieces else [[c] + pieces[0]] + pieces[1..]
  }

  /** How `Split` treats the first character. */
  lemma SplitCons(c: char, t: string, sep: char)
    ensures Split([c] + t, sep) == ConsPiece(c, Split(t, sep), sep)
  {
  }

  /** Joining the pieces of `[c] + t` puts `c` in front of the joined pieces of `t`. */
  lemma JoinConsPiece(c: char, pieces: seq<string>, sep: char)
    requires |pieces| >= 1
    ensures Join(ConsPiece(c, pieces, sep), sep) == [c] + Join(pieces, sep)
  {
  }

  /** Joining the pieces with the separator gives back the string. */
  lemma {:induction false} JoinSplit(s: string, sep: char)
    ensures Join(Split(s, sep), sep) == s
  {
    if s != [] {
      var c, t := s[0], s[1..];
      assert s == [c] + t;
      JoinSplit(t, sep);
      SplitCons(c, t, sep);
      JoinConsPiece(c, Split(t, sep), sep);
    }
  }

  /** Adding a first character only touches the first pieces. */
  lemma ConsPieceAppend(c: char, ra: seq<string>, rb: seq<string>, sep: char)
    requires |ra| >= 1
    ensures ConsPiece(c, ra + rb, sep) == ConsPiece(c, ra, sep) + rb
  {
  }

  /** Splitting at a separator splits the two sides separately. */
  lemma {:induction false} SplitConcat(a: string, b: string, sep: char)
    ensures Split(a + [sep] + b, sep) == Split(a, sep) + Split(b, sep)
  {
    if a == [] {
      assert a + [sep] + b == [sep] + b;
      SplitCons(sep, b, sep);
    } else {
      var c, tail := a[0], a[1..];
      var x := tail + [sep] + b;
      assert a == [c] + tail && a + [sep] + b == [c] + x;
      SplitConcat(tail, b, sep);
      SplitCons(c, x, sep);
      SplitCons(c, tail, sep);
      ConsPieceAppend(c, Split(tail, sep), Split(b, sep), sep);
    }
  }

  /** Splitting undoes joining separator-free pieces. */
  lemma {:induction false} SplitJoin(parts: seq<string>, sep: char)
    requires |parts| >= 1
    requires forall k :: 0 <= k < |parts| ==> sep !in parts[k]
    ensures Split(Join(parts, sep), sep) == parts
  {
    SplitNoSeparator(parts[0], sep);
    if |parts| > 1 {
      SplitJoin(parts[1..], sep);
      SplitConcat(parts[0], Join(parts[1..], sep), sep);
      assert [parts[0]] + parts[1..] == parts;
    }
  }

  /** `.map(tag => tag.trim())`. */
  function TrimAll(pieces: seq<string>): (r: seq<string>)
    ensures |r| == |pieces|
    ensures forall k :: 0 <= k < |r| ==> r[k] == Trim(pieces[k])
  {
    seq(|pieces|, k requires 0 <= k < |pieces| => Trim(pieces[k]))
  }

  /** `.filter(tag => tag.length > 0)`: the non-empty pieces, in their order. */
  function DropEmpty(pieces: seq<string>): (r: seq<string>)
    ensures |r| <= |pieces|
    ensures forall k :: 0 <= k < |r| ==> r[k] != [] && r[k] in pieces
    ensures forall x :: x in pieces && x != [] ==> x in r
  {
    if pieces == [] then []
    else if pieces[0] == [] then DropEmpty(pieces[1..])
    else [pieces[0]] + DropEmpty(pieces[1..])
  }

  /** Filtering a concatenation filters each part and keeps their order. */
  lemma {:induction false} DropEmptyConcat(a: seq<string>, b: seq<string>)
    ensures DropEmpty(a + b) == DropEmpty(a) + DropEmpty(b)
  {
    if a != [] {
      DropEmptyConcat(a[1..], b);
      assert (a + b)[1..] == a[1..] + b;
    } else {
      assert a + b == b;
    }
  }

  /**
    The tag list sent with an idea: every tag is non-empty, has no comma and no
    surrounding whitespace, and there is at most one more tag than commas.
   */
  function ParseTags(s: string): (r: seq<string>)
    ensures |r| <= Count(s, ',') + 1
    ensures forall k :: 0 <= k < |r| ==> r[k] != [] && ',' !in r[k] && Trimmed(r[k])
  {
    var pieces := Split(s, ',');
    SplitPieces(s, ',');
    var trimmed := TrimAll(pieces);
    forall k | 0 <= k < |trimmed| ensures ',' !in trimmed[k] && Trimmed(trimmed[k]) {
      TrimNoNewChars(pieces[k], ',');
    }
    DropEmpty(trimmed)
  }

  /** Trimming introduces no character. */
  lemma TrimNoNewChars(s: string, c: char)
    requires c !in s
    ensures c !in Trim(s)
  {
  }

  /** `.map(tag => tag.trim())` over a concatenation. */
  lemma TrimAllConcat(a: seq<string>, b: seq<string>)
    ensures TrimAll(a + b) == TrimAll(a) + TrimAll(b)
  {
  }

  /**
    Tags keep the left-to-right order of the comma-separated pieces: the tags of
    `a,b` are the tags of `a` followed by the tags of `b`.
   */
  lemma ParseTagsConcat(a: string, b: string)
    ensures ParseTags(a + [','] + b) == ParseTags(a) + ParseTags(b)
  {
    SplitConcat(a, b, ',');
    var pa, pb := Split(a, ','), Split(b, ',');
    TrimAllConcat(pa, pb);
    DropEmptyConcat(TrimAll(pa), TrimAll(pb));
  }

  /** A piece without commas gives its trimmed self as one tag, or no tag when blank. */
  lemma ParseTagsPiece(s: string)
    requires ',' !in s
    ensures ParseTags(s) == if AllSpace(s) then [] else [Trim(s)]
  {
    SplitNoSeparator(s, ',');
    assert TrimAll([s]) == [Trim(s)];
  }

  /** What the form sends to `submitIdea`. */
  datatype Submission = Submission(title: string, description: string, category: string, tags: seq<string>)

  /**
    `handleSubmit` up to the call of `submitIdea`: refused (nothing is sent)
    when title, description or category is blank; otherwise the three are sent
    trimmed, with the parsed tags.
   */
  function PrepareSubmission(title: string, description: string, category: string, tags: string)
    : (r: Option<Submission>)
    ensures r.None? <==> AllSpace(title) || AllSpace(description) || AllSpace(category)
    ensures r.Some? ==>
      && r.value.title == Trim(title) && r.value.title != [] && Trimmed(r.value.title)
      && r.value.description == Trim(description) && r.value.description != [] && Trimmed(r.value.description)
      && r.value.category == Trim(category) && r.value.category != [] && Trimmed(r.value.category)
      && r.value.tags == ParseTags(tags)
  {
    if Trim(title) == [] || Trim(description) == [] || Trim(category) == [] then None
    else Some(Submission(Trim(title), Trim(description), Trim(category), ParseTags(tags)))
  }
}
