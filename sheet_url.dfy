/** The two checks made on a Google Sheet link: `validateSheetUrl`
    (script.js:220-229) and `extractSheetId` (script.js:5-8). */
module SheetUrl {
  import opened JsText
  import opened Wrappers

  /** The path segment that precedes a spreadsheet's id. */
  const IdMarker: string := "/spreadsheets/d/"
  /** The query that asks for the sheet as CSV. */
  const CsvMarker: string := "export?format=csv"

  /** `validateSheetUrl(u)`: a non-empty link that contains both markers. */
  function ValidateSheetUrl(u: string): (ok: bool)
    ensures ok <==> |u| > 0
                    && (exists i :: 0 <= i <= |u| && OccursAt(u, IdMarker, i))
                    && (exists j :: 0 <= j <= |u| && OccursAt(u, CsvMarker, j))
  {
    if u == [] then false else Contains(u, IdMarker) && Contains(u, CsvMarker)
  }

  /** The regular expression `/\/spreadsheets\/d\/([^/]+)/` matches at `i`:
      the marker is there and a character other than '/' follows it. */
  predicate MatchesAt(u: string, i: int) {
    OccursAt(u, IdMarker, i) && i + |IdMarker| < |u| && u[i + |IdMarker|] != '/'
  }

  /** The leftmost match at or after `from`. */
  function FirstMatch(u: string, from: nat): (r: Option<nat>)
    requires from <= |u|
    ensures r.None? ==> forall i :: from <= i <= |u| ==> !MatchesAt(u, i)
    ensures r.Some? ==> from <= r.value <= |u| && MatchesAt(u, r.value)
                        && forall i :: from <= i < r.value ==> !MatchesAt(u, i)
    decreases |u| - from
  {
    if MatchesAt(u, from) then Some(from)
    else if from == |u| then None
    else FirstMatch(u, from + 1)
  }

  /** The longest run of characters other than '/' that starts at `j`:
      what the greedy `[^/]+` captures. */
  function RunToSlash(u: string, j: nat): (r: string)
    requires j <= |u|
    ensures j + |r| <= |u| && r == u[j..j + |r|]
    ensures '/' !in r
    ensures j + |r| == |u| || u[j + |r|] == '/'
    decreases |u| - j
  {
    if j == |u| || u[j] == '/' then []
    else
      var rest := RunToSlash(u, j + 1);
      assert u[j..j + 1 + |rest|] == [u[j]] + rest;
      [u[j]] + rest
  }

  /** `id` is the capture of a match of the id pattern at `i`. */
  predicate IsIdAt(u: string, i: int, id: string) {
    MatchesAt(u, i)
    && var j := i + |IdMarker|;
       j + |id| <= |u| && u[j..j + |id|] == id && '/' !in id
       && (j + |id| == |u| || u[j + |id|] == '/')
  }

  /** `extractSheetId(u)`: null when no '/spreadsheets/d/' is followed by a
      character other than '/'; otherwise the non-empty, slash-free segment
      that follows the leftmost such marker, up to the next '/' or the end. */
  function ExtractSheetId(u: string): (r: Option<string>)
    ensures r.None? <==> forall i :: 0 <= i <= |u| ==> !MatchesAt(u, i)
    ensures r.Some? ==> |r.value| > 0
                        && exists i :: 0 <= i <= |u| && IsIdAt(u, i, r.value)
                                       && forall k :: 0 <= k < i ==> !MatchesAt(u, k)
  {
    match FirstMatch(u, 0)
    case None => None
    case Some(i) =>
      var id := RunToSlash(u, i + |IdMarker|);
      assert IsIdAt(u, i, id);
      Some(id)
  }

  /** The leftmost match is the one no earlier position matches. */
  lemma FirstMatchIs(u: string, m: nat)
    requires m <= |u| && MatchesAt(u, m)
    requires forall k :: 0 <= k < m ==> !MatchesAt(u, k)
    ensures FirstMatch(u, 0) == Some(m)
  {
  }

  /** The id of a well-formed export link is the segment between the marker and the next '/'. */
  lemma ExtractFromExportLink(prefix: string, id: string, rest: string)
    requires |id| > 0 && '/' !in id
    // the marker placed after `prefix` is its first occurrence
    requires forall i :: 0 <= i < |prefix| ==> !OccursAt(prefix + IdMarker, IdMarker, i)
    ensures ExtractSheetId(prefix + IdMarker + id + "/" + rest) == Some(id)
  {
    var head := prefix + IdMarker;
    var u := head + id + "/" + rest;
    var m := |prefix|;
    var j := |head|;
    assert u[..j] == head;
    assert u[m..j] == IdMarker;
    assert u[j] == id[0];
    assert MatchesAt(u, m);
    forall k | 0 <= k < m ensures !MatchesAt(u, k) {
      assert k + |IdMarker| <= |head|;
      assert u[k..k + |IdMarker|] == head[k..k + |IdMarker|];
      assert !OccursAt(head, IdMarker, k);
    }
    FirstMatchIs(u, m);
    assert u[j..j + |id|] == id;
    assert u[j + |id|] == '/';
    RunUnique(u, j, RunToSlash(u, j), id);
  }

  /** A maximal slash-free run from a given position is unique. */
  lemma RunUnique(u: string, j: nat, a: string, b: string)
    requires j + |a| <= |u| && u[j..j + |a|] == a && '/' !in a && (j + |a| == |u| || u[j + |a|] == '/')
    requires j + |b| <= |u| && u[j..j + |b|] == b && '/' !in b && (j + |b| == |u| || u[j + |b|] == '/')
    ensures a == b
  {
  }
}
