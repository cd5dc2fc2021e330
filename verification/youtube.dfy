/**
 * `extractYouTubeVideoId` of components/gemini-playground.tsx: recognises a bare video ID
 * or one of three URL forms and returns the 11-character ID, or null.
 *
 * Each URL form is an unanchored regular expression of a fixed-length prefix followed by
 * `([a-zA-Z0-9_-]{11})`. Such a pattern has no alternatives to backtrack into, so
 * `String.prototype.match` returns the match at the leftmost start position where the
 * prefix and the 11 ID characters are present; whatever follows is ignored.
 */
module YouTube {
  import opened Wrappers

  const IdLength := 11

  /** `[a-zA-Z0-9_-]` */
  predicate IsIdChar(c: char) {
    ('a' <= c <= 'z') || ('A' <= c <= 'Z') || ('0' <= c <= '9') || c == '_' || c == '-'
  }

  /** `/^[a-zA-Z0-9_-]{11}$/` */
  predicate IsVideoId(s: string) {
    |s| == IdLength && forall i :: 0 <= i < |s| ==> IsIdChar(s[i])
  }

  /** The URL forms, in the order they are tried. */
  datatype Form =
    | Query      // [?&]v=<id>
    | ShortLink  // youtu.be/<id>
    | Live       // youtube.com/live/<id>

  function Rank(f: Form): nat {
    match f
    case Query => 0
    case ShortLink => 1
    case Live => 2
  }

  function PrefixLength(f: Form): nat {
    match f
    case Query => 3
    case ShortLink => 9
    case Live => 17
  }

  /** The form's prefix occurs at position i. */
  predicate PrefixAt(s: string, i: nat, f: Form)
    requires i + PrefixLength(f) <= |s|
  {
    match f
    case Query => (s[i] == '?' || s[i] == '&') && s[i + 1 .. i + 3] == "v="
    case ShortLink => s[i .. i + 9] == "youtu.be/"
    case Live => s[i .. i + 17] == "youtube.com/live/"
  }

  /** The ID characters the form's capture group takes when it matches at position i. */
  function Captured(s: string, i: nat, f: Form): string
    requires i + PrefixLength(f) + IdLength <= |s|
  {
    s[i + PrefixLength(f) .. i + PrefixLength(f) + IdLength]
  }

  /** The form's regular expression matches starting at position i. */
  predicate MatchAt(s: string, i: int, f: Form) {
    && 0 <= i
    && i + PrefixLength(f) + IdLength <= |s|
    && PrefixAt(s, i, f)
    && IsVideoId(Captured(s, i, f))
  }

  /** The leftmost match of the form at or after `from`. */
  function FirstMatch(s: string, f: Form, from: nat): (r: Option<nat>)
    ensures r.Some? ==> from <= r.value && MatchAt(s, r.value, f)
    ensures r.Some? ==> forall j :: from <= j < r.value ==> !MatchAt(s, j, f)
    ensures r.None? ==> forall j :: from <= j ==> !MatchAt(s, j, f)
    decreases |s| - from
  {
    if |s| < from + PrefixLength(f) + IdLength then None
    else if MatchAt(s, from, f) then Some(from)
    else FirstMatch(s, f, from + 1)
  }

  /** `input.match(re)` followed by `m[1]`: the captured ID of the leftmost match, if any. */
  function MatchForm(input: string, f: Form): (id: Option<string>)
    ensures id.Some? ==> IsVideoId(id.value)
  {
    match FirstMatch(input, f, 0)
    case Some(i) => Some(Captured(input, i, f))
    case None => None
  }

  /**
   * `extractYouTubeVideoId`: the empty input gives null, a bare ID is returned as it is,
   * and whatever is returned is a well-formed ID.
   */
  function ExtractVideoId(input: string): (id: Option<string>)
    ensures id.Some? ==> IsVideoId(id.value)
    ensures input == "" ==> id == None
    ensures IsVideoId(input) ==> id == Some(input)
  {
    if input == "" then None
    else if IsVideoId(input) then Some(input)
    else
      match MatchForm(input, Query)
      case Some(v) => Some(v)
      case None =>
        match MatchForm(input, ShortLink)
        case Some(v) => Some(v)
        case None => MatchForm(input, Live)
  }

  /** A form that matches at the leftmost position i is what `FirstMatch` finds. */
  lemma FirstMatchIsLeftmost(s: string, f: Form, i: int)
    requires MatchAt(s, i, f)
    requires forall j :: 0 <= j < i ==> !MatchAt(s, j, f)
    ensures FirstMatch(s, f, 0) == Some(i)
  {
  }

  /**
   * Priority and leftmost semantics: when the input is not a bare ID and form f is the
   * first form that matches anywhere, the result is what f captures at its leftmost match.
   */
  lemma ExtractFirstFormLeftmost(input: string, f: Form, i: int)
    requires !IsVideoId(input)
    requires MatchAt(input, i, f)
    requires forall j :: 0 <= j < i ==> !MatchAt(input, j, f)
    requires forall g, j :: Rank(g) < Rank(f) ==> !MatchAt(input, j, g)
    ensures ExtractVideoId(input) == Some(Captured(input, i, f))
  {
    FirstMatchIsLeftmost(input, f, i);
    var q, l := FirstMatch(input, Query, 0), FirstMatch(input, ShortLink, 0);
    assert f != Query ==> q.None? by {
      assert q.Some? ==> MatchAt(input, q.value, Query);
    }
    assert f == Live ==> l.None? by {
      assert l.Some? ==> MatchAt(input, l.value, ShortLink);
    }
  }

  /** The result is null exactly for the empty input and for inputs that are not an ID and match no form. */
  lemma ExtractNoneIff(input: string)
    ensures ExtractVideoId(input) == None <==>
      input == "" || (!IsVideoId(input) && forall f, j :: !MatchAt(input, j, f))
  {
    if input != "" && !IsVideoId(input) && ExtractVideoId(input) == None {
      forall f, j | true
        ensures !MatchAt(input, j, f)
      {
        assert FirstMatch(input, f, 0).None?;
      }
    }
  }

  /** A non-null result is the input itself or the capture of some form at some position. */
  lemma ExtractOrigin(input: string, id: string)
    requires ExtractVideoId(input) == Some(id)
    ensures id == input || exists f, i :: MatchAt(input, i, f) && Captured(input, i, f) == id
  {
    if id != input {
      var f :| FirstMatch(input, f, 0).Some? && Captured(input, FirstMatch(input, f, 0).value, f) == id;
      var i := FirstMatch(input, f, 0).value;
      assert MatchAt(input, i, f) && Captured(input, i, f) == id;
    }
  }

  /** No `[?&]v=` match can start inside a leading part that holds neither `?` nor `&`. */
  lemma NoQueryIn(s: string, head: string)
    requires head <= s && '?' !in head && '&' !in head
    ensures forall j :: 0 <= j < |head| ==> !MatchAt(s, j, Query)
  {
    forall j | 0 <= j < |head| ensures !MatchAt(s, j, Query) {
      assert s[j] == head[j];
    }
  }

  /**
   * A short link `<scheme>youtu.be/<id>` gives its ID, provided the scheme part holds
   * no `?`, `&` or `y` (so no earlier match of any form can start there).
   */
  lemma ShortLinkUrl(scheme: string, id: string)
    requires '?' !in scheme && '&' !in scheme && 'y' !in scheme && IsVideoId(id)
    ensures ExtractVideoId(scheme + "youtu.be/" + id) == Some(id)
  {
    var s := scheme + "youtu.be/" + id;
    var k := |scheme|;
    assert '?' !in s && '&' !in s by {
      assert s == scheme + ("youtu.be/" + id);
      assert '?' !in id && '&' !in id by {
        forall i | 0 <= i < |id| ensures id[i] != '?' && id[i] != '&' {
          assert IsIdChar(id[i]);
        }
      }
    }
    NoQueryIn(s, s);
    forall j | 0 <= j < k ensures !MatchAt(s, j, ShortLink) {
      assert s[j] == scheme[j];
      if j + 9 <= |s| {
        assert s[j .. j + 9][0] == s[j];
      }
    }
    assert s[k .. k + 9] == "youtu.be/";
    assert Captured(s, k, ShortLink) == id;
    ExtractFirstFormLeftmost(s, ShortLink, k);
  }

  /**
   * A URL `<page>?v=<id><rest>` gives its ID, whatever follows it, provided the page part
   * holds no `?` or `&`.
   */
  lemma QueryUrl(page: string, id: string, rest: string)
    requires '?' !in page && '&' !in page && IsVideoId(id)
    ensures ExtractVideoId(page + "?v=" + id + rest) == Some(id)
  {
    var s := page + "?v=" + id + rest;
    var k := |page|;
    NoQueryIn(s, page);
    assert s[k] == '?' && s[k + 1 .. k + 3] == "v=";
    assert Captured(s, k, Query) == id;
    ExtractFirstFormLeftmost(s, Query, k);
  }

  /**
   * `https://youtu.be/dQw4w9WgXcQ` gives `dQw4w9WgXcQ`. The literals are parameters pinned
   * by `requires` so that the proof goes through `ShortLinkUrl` instead of unfolding the
   * extractor over a concrete string.
   */
  lemma ShortLinkExample(scheme: string, id: string)
    requires scheme == "https://" && id == "dQw4w9WgXcQ"
    ensures ExtractVideoId(scheme + "youtu.be/" + id) == Some(id)
  {
    ShortLinkUrl(scheme, id);
  }

  /**
   * `https://www.youtube.com/watch?v=dQw4w9WgXcQ&t=42s` gives `dQw4w9WgXcQ`: the query
   * parameter is found and what follows the 11 ID characters is ignored. As above, the
   * literals come in through `requires` so that the proof is an instance of `QueryUrl`.
   */
  lemma QueryExample(page: string, id: string, rest: string)
    requires page == "https://www.youtube.com/watch" && id == "dQw4w9WgXcQ" && rest == "&t=42s"
    ensures ExtractVideoId(page + "?v=" + id + rest) == Some(id)
  {
    QueryUrl(page, id, rest);
  }

  /** An input that is neither an ID nor any of the URL forms is rejected. */
  lemma InvalidExample()
    ensures ExtractVideoId("not-a-valid-id!") == None
  {
    var s := "not-a-valid-id!";
    assert !IsIdChar(s[14]);
    forall f, j ensures !MatchAt(s, j, f) {
      if f == Query && 0 <= j && j + 14 <= |s| {
        assert s[j] != '?' && s[j] != '&';
      }
    }
    ExtractNoneIff(s);
  }
}
