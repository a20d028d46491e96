/** The WHERE clause of the cutoff-unmet listing: one disjunct per (profile, quality id
    below the profile's cutoff) pair, each testing the movie's profile id and searching the
    stored quality document for the quality id with a LIKE pattern. */
module QualityCutoff {
  import opened Text

  /** A profile and the ids of its qualities that lie below its cutoff. */
  datatype QualitiesBelowCutoff = QualitiesBelowCutoff(profileId: int, qualityIds: seq<int>)

  /** The LIKE pattern between the two `%`: `_quality_: q,`. Each `_` matches any one
      character (the quotes around the JSON key), and the comma ends the number. */
  function QualityPattern(q: int): string {
    "_quality_: " + IntText(q) + ","
  }

  /** The text the indented JSON serializer writes for a quality id inside the stored
      quality document. */
  function QualityJson(q: int): string {
    "\"quality\": " + IntText(q) + ","
  }

  /** One disjunct: the movie's profile is `profileId` and its file's quality matches `q`. */
  function CutoffClause(table: string, profileId: int, q: int): string {
    "([" + table + "].[ProfileId] = " + IntText(profileId) +
    " AND [MovieFile].[Quality] LIKE '%" + QualityPattern(q) + "%')"
  }

  /** Every disjunct reads the quality column through the name `MovieFile`. */
  lemma ClauseReadsMovieFile(table: string, profileId: int, q: int)
    ensures IsInfix("[MovieFile].[Quality]", CutoffClause(table, profileId, q))
  {
    var before := "([" + table + "].[ProfileId] = " + IntText(profileId) + " AND ";
    var after := " LIKE '%" + QualityPattern(q) + "%')";
    assert CutoffClause(table, profileId, q) == before + "[MovieFile].[Quality]" + after;
    InfixOfConcat(before, "[MovieFile].[Quality]", after);
  }

  /** The disjuncts of one profile, in the order of its quality ids. */
  function ProfileClauses(table: string, p: QualitiesBelowCutoff): (r: seq<string>)
    ensures |r| == |p.qualityIds|
    ensures forall j :: 0 <= j < |r| ==> r[j] == CutoffClause(table, p.profileId, p.qualityIds[j])
  {
    seq(|p.qualityIds|, j requires 0 <= j < |p.qualityIds| => CutoffClause(table, p.profileId, p.qualityIds[j]))
  }

  /** The number of (profile, quality id) pairs. */
  function PairCount(qs: seq<QualitiesBelowCutoff>): nat {
    if qs == [] then 0 else PairCount(qs[..|qs| - 1]) + |qs[|qs| - 1].qualityIds|
  }

  /** The disjuncts for all pairs, profile by profile. */
  function Clauses(table: string, qs: seq<QualitiesBelowCutoff>): (r: seq<string>)
    ensures |r| == PairCount(qs)
  {
    if qs == [] then []
    else Clauses(table, qs[..|qs| - 1]) + ProfileClauses(table, qs[|qs| - 1])
  }

  /** `c` is the disjunct of some (profile, quality id) pair of `qs`. */
  predicate IsPairClause(table: string, qs: seq<QualitiesBelowCutoff>, c: string) {
    exists i, j :: 0 <= i < |qs| && 0 <= j < |qs[i].qualityIds| && c == CutoffClause(table, qs[i].profileId, qs[i].qualityIds[j])
  }

  /** Every pair contributes its disjunct. */
  lemma {:induction false} ClausesHavePair(table: string, qs: seq<QualitiesBelowCutoff>, i: int, j: int)
    requires 0 <= i < |qs| && 0 <= j < |qs[i].qualityIds|
    ensures CutoffClause(table, qs[i].profileId, qs[i].qualityIds[j]) in Clauses(table, qs)
    decreases |qs|
  {
    var init := qs[..|qs| - 1];
    if i < |init| {
      assert init[i] == qs[i];
      ClausesHavePair(table, init, i, j);
    } else {
      assert ProfileClauses(table, qs[i])[j] == CutoffClause(table, qs[i].profileId, qs[i].qualityIds[j]);
    }
  }

  /** Every disjunct comes from a pair. */
  lemma {:induction false} ClausesComeFromPairs(table: string, qs: seq<QualitiesBelowCutoff>, c: string)
    requires c in Clauses(table, qs)
    ensures IsPairClause(table, qs, c)
    decreases |qs|
  {
    var init := qs[..|qs| - 1];
    var last := qs[|qs| - 1];
    if c in Clauses(table, init) {
      ClausesComeFromPairs(table, init, c);
      var i, j :| 0 <= i < |init| && 0 <= j < |init[i].qualityIds| && c == CutoffClause(table, init[i].profileId, init[i].qualityIds[j]);
      assert qs[i] == init[i];
    } else {
      var j :| 0 <= j < |last.qualityIds| && ProfileClauses(table, last)[j] == c;
      assert c == CutoffClause(table, qs[|qs| - 1].profileId, qs[|qs| - 1].qualityIds[j]);
    }
  }

  /** The whole clause: the disjuncts joined by ` OR ` inside one pair of parentheses. It
      holds every pair's disjunct, and is `()` when there are no pairs. */
  function CutoffWhere(table: string, qs: seq<QualitiesBelowCutoff>): (r: string)
    ensures PairCount(qs) == 0 ==> r == "()"
    ensures |r| >= 2 && r[0] == '(' && r[|r| - 1] == ')'
    ensures forall i, j :: 0 <= i < |qs| && 0 <= j < |qs[i].qualityIds| ==>
              IsInfix(CutoffClause(table, qs[i].profileId, qs[i].qualityIds[j]), r)
  {
    var clauses := Clauses(table, qs);
    var body := Join(" OR ", clauses);
    var r := "(" + body + ")";
    forall i, j | 0 <= i < |qs| && 0 <= j < |qs[i].qualityIds|
      ensures IsInfix(CutoffClause(table, qs[i].profileId, qs[i].qualityIds[j]), r)
    {
      ClausesHavePair(table, qs, i, j);
      var n :| 0 <= n < |clauses| && clauses[n] == CutoffClause(table, qs[i].profileId, qs[i].qualityIds[j]);
      PartInParenthesizedJoin(" OR ", clauses, n);
    }
    assert |r| == |body| + 2;
    r
  }

  /** A part of a joined list stays an infix once the list is parenthesized. */
  lemma PartInParenthesizedJoin(sep: string, parts: seq<string>, n: int)
    requires 0 <= n < |parts|
    ensures IsInfix(parts[n], "(" + Join(sep, parts) + ")")
  {
    var c := parts[n];
    var body := Join(sep, parts);
    var r := "(" + body + ")";
    JoinContainsParts(sep, parts, n);
    var k :| 0 <= k <= |body| - |c| && OccursAt(c, body, k);
    assert r[1 + k..1 + k + |c|] == body[k..k + |c|];
    assert OccursAt(c, r, 1 + k);
  }

  /** `BuildQualityCutoffWhereClause`: the nested loops collect one disjunct per pair. */
  method BuildQualityCutoffWhereClause(table: string, qualitiesBelowCutoff: seq<QualitiesBelowCutoff>) returns (r: string)
    ensures r == CutoffWhere(table, qualitiesBelowCutoff)
  {
    var clauses: seq<string> := [];
    for i := 0 to |qualitiesBelowCutoff|
      invariant clauses == Clauses(table, qualitiesBelowCutoff[..i])
    {
      var profile := qualitiesBelowCutoff[i];
      for j := 0 to |profile.qualityIds|
        invariant clauses == Clauses(table, qualitiesBelowCutoff[..i]) + ProfileClauses(table, profile)[..j]
      {
        assert ProfileClauses(table, profile)[..j + 1] == ProfileClauses(table, profile)[..j] + [CutoffClause(table, profile.profileId, profile.qualityIds[j])];
        clauses := clauses + [CutoffClause(table, profile.profileId, profile.qualityIds[j])];
      }
      assert ProfileClauses(table, profile)[..|profile.qualityIds|] == ProfileClauses(table, profile);
      assert qualitiesBelowCutoff[..i + 1][..i] == qualitiesBelowCutoff[..i];
    }
    assert qualitiesBelowCutoff[..|qualitiesBelowCutoff|] == qualitiesBelowCutoff;
    r := "(" + Join(" OR ", clauses) + ")";
  }

  /** SQL `LIKE '%pattern%'` with `_` matching any one character: the pattern matches the
      text at offset `k`. Case folding and `%` inside the pattern are not modelled. */
  predicate LikeAt(pattern: string, text: string, k: int) {
    0 <= k <= |text| - |pattern| &&
    forall i :: 0 <= i < |pattern| ==> pattern[i] == '_' || pattern[i] == text[k + i]
  }

  predicate ContainsLike(pattern: string, text: string) {
    exists k :: 0 <= k <= |text| - |pattern| && LikeAt(pattern, text, k)
  }

  /** A stored quality document holding quality `q` matches `q`'s pattern. */
  lemma StoredQualityMatches(q: int, before: string, after: string)
    ensures ContainsLike(QualityPattern(q), before + QualityJson(q) + after)
  {
    var text := before + QualityJson(q) + after;
    var pat := QualityPattern(q);
    var k := |before|;
    forall i | 0 <= i < |pat| ensures pat[i] == '_' || pat[i] == text[k + i] {
      assert text[k + i] == QualityJson(q)[i];
    }
    assert LikeAt(pat, text, k);
  }

  /** The pattern of quality `a` matches the serialized id `b` only when `a == b`: the
      comma after the number keeps quality 1 from matching a stored 10, and the sign and
      digits must agree. */
  lemma {:induction false} PatternMatchesOnlyItsQuality(a: int, b: int)
    ensures ContainsLike(QualityPattern(a), QualityJson(b)) <==> a == b
  {
    var pat, json := QualityPattern(a), QualityJson(b);
    var ta, tb := IntText(a), IntText(b);
    if a == b {
      StoredQualityMatches(b, "", "");
      assert "" + json + "" == json;
    }
    if ContainsLike(pat, json) {
      var k :| 0 <= k <= |json| - |pat| && LikeAt(pat, json, k);
      IntTextChars(b);
      IntTextChars(a);
      assert pat[1] == 'q';
      assert forall m :: 11 <= m < 11 + |tb| ==> json[m] == tb[m - 11];
      assert json[11 + |tb|] == ',';
      assert k == 0 by {
        assert json[k + 1] == 'q';
      }
      assert |ta| == |tb| by {
        assert pat[11 + |ta|] == ',';
        assert json[11 + |ta|] == ',';
      }
      assert ta == tb by {
        forall t | 0 <= t < |ta| ensures ta[t] == tb[t] {
          assert pat[11 + t] == ta[t];
        }
      }
      IntTextInjective(a, b);
    }
  }
}
