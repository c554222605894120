/**
 * The search language of the public book listing. A query is a list of
 * segments separated by `;`; blank segments are ignored. A segment with a `:`
 * is `key:value`, where the upper-cased key names a tag type or `DESC`; any
 * other segment is a title search. Every segment yields filter conditions and
 * all conditions are AND-ed, after a leading `state = VISIBLE`.
 */
module Search {
  import opened Base
  import opened Entities
  import opened Text

  datatype Key = TagKey(tagType: TagType) | DescKey

  /** One filter condition of the query sent to the database. */
  datatype Condition =
    | StateIs(state: BookState)
    | TitleContains(text: string)
    | DescContains(text: string)
    | HasTag(tagType: TagType, name: string)

  /** The database's reading of a condition; `insensitive` compares lower-cased text. */
  predicate Holds(u: Unicode, b: Book, c: Condition) {
    match c
    case StateIs(s) => b.state == s
    case TitleContains(q) => Contains(LowerStr(u, b.title), LowerStr(u, q))
    case DescContains(q) => Contains(LowerStr(u, b.description), LowerStr(u, q))
    case HasTag(t, n) => exists tag :: tag in b.tags && tag.tagType == t && LowerStr(u, tag.name) == LowerStr(u, n)
  }

  /** `AND` of all conditions. */
  predicate Matches(u: Unicode, b: Book, cs: seq<Condition>) {
    forall i :: 0 <= i < |cs| ==> Holds(u, b, cs[i])
  }

  /** The keys the tag schema accepts: a tag type's name or the literal `DESC`. */
  function KeyOf(k: string): Option<Key> {
    if k == "AUTHOR" then Some(TagKey(AUTHOR))
    else if k == "GENRE" then Some(TagKey(GENRE))
    else if k == "DESC" then Some(DescKey)
    else None
  }

  /** Trim every piece and drop the empty ones. */
  function CleanSegments(parts: seq<string>): seq<string> {
    if parts == [] then []
    else
      var t := Trim(parts[0]);
      (if t == [] then [] else [t]) + CleanSegments(parts[1..])
  }

  function Segments(query: string): seq<string> {
    CleanSegments(Split(query, ';'))
  }

  /** The tag schema applied to a segment with a colon: split on `:`, upper-case
      the first part and lower-case the others, then demand exactly two parts
      whose first is a key. */
  function ParseTag(u: Unicode, segment: string): Result<(Key, string)> {
    var parts := Split(segment, ':');
    if |parts| != 2 then Err(BadRequest)
    else
      match KeyOf(UpperStr(u, parts[0]))
      case None => Err(BadRequest)
      case Some(k) => Ok((k, LowerStr(u, parts[1])))
  }

  function TitleConditions(words: seq<string>): (cs: seq<Condition>) {
    seq(|words|, i requires 0 <= i < |words| => TitleContains(words[i]))
  }

  function DescConditions(words: seq<string>): (cs: seq<Condition>) {
    seq(|words|, i requires 0 <= i < |words| => DescContains(words[i]))
  }

  /** The conditions one segment contributes. */
  function SegmentConditions(u: Unicode, segment: string): Result<seq<Condition>> {
    if ':' in segment then
      match ParseTag(u, segment)
      case Err(e) => Err(e)
      case Ok((DescKey, v)) => Ok(DescConditions(Words(u, LowerStr(u, v))))
      case Ok((TagKey(t), v)) => Ok([HasTag(t, v)])
    else Ok(TitleConditions(Words(u, LowerStr(u, segment))))
  }

  /** The conditions of a list of segments, in order; the first bad segment fails. */
  function ConditionsOf(u: Unicode, segs: seq<string>): Result<seq<Condition>>
    decreases |segs|
  {
    if segs == [] then Ok([])
    else
      match ConditionsOf(u, segs[..|segs| - 1])
      case Err(e) => Err(e)
      case Ok(cs) =>
        match SegmentConditions(u, segs[|segs| - 1])
        case Err(e) => Err(e)
        case Ok(more) => Ok(cs + more)
  }

  /** The whole condition list of a query, given its segments. */
  function QueryConditions(u: Unicode, segs: seq<string>): Result<seq<Condition>> {
    match ConditionsOf(u, segs)
    case Err(e) => Err(e)
    case Ok(cs) => Ok([StateIs(VISIBLE)] + cs)
  }

  /** A segment holds of a book when it parses and all its conditions hold. */
  predicate SegmentHolds(u: Unicode, b: Book, segment: string) {
    SegmentConditions(u, segment).Ok? && Matches(u, b, SegmentConditions(u, segment).value)
  }

  predicate Malformed(u: Unicode, segment: string) {
    ':' in segment && ParseTag(u, segment).Err?
  }

  // ---------------------------------------------------------------- segmentation

  /** What a segment looks like once cleaned: non-empty, free of the
      separator, with no whitespace at either end. */
  predicate IsCleanSegment(s: string, sep: char) {
    s != [] && sep !in s && !IsWhitespace(s[0]) && !IsWhitespace(s[|s| - 1])
  }

  lemma TrimNoSep(s: string, sep: char)
    requires sep !in s
    ensures sep !in Trim(s)
  {
    TrimSpec(s);
    var t := Trim(s);
    var i :| 0 <= i <= |s| - |t| && t == s[i..i + |t|] && AllWhitespace(s[..i]) && AllWhitespace(s[i + |t|..]);
  }

  /** No non-blank piece between semicolons is lost, and nothing else appears. */
  lemma {:induction false} SegmentsAreTrimmedPieces(parts: seq<string>)
    ensures forall i :: 0 <= i < |parts| && Trim(parts[i]) != [] ==> Trim(parts[i]) in CleanSegments(parts)
    ensures forall s :: s in CleanSegments(parts) ==> exists i :: 0 <= i < |parts| && s == Trim(parts[i]) && s != []
  {
    if parts != [] {
      SegmentsAreTrimmedPieces(parts[1..]);
      forall s | s in CleanSegments(parts)
        ensures exists i :: 0 <= i < |parts| && s == Trim(parts[i]) && s != []
      {
        if s in CleanSegments(parts[1..]) {
          var j :| 0 <= j < |parts[1..]| && s == Trim(parts[1..][j]) && s != [];
          assert s == Trim(parts[j + 1]);
        } else {
          assert s == Trim(parts[0]);
        }
      }
      forall i | 0 <= i < |parts| && Trim(parts[i]) != []
        ensures Trim(parts[i]) in CleanSegments(parts)
      {
        if i > 0 {
          assert parts[i] == parts[1..][i - 1];
        }
      }
    }
  }

  /** Every cleaned segment is non-empty, has no separator and no surrounding whitespace. */
  lemma {:induction false} SegmentsAreClean(parts: seq<string>, sep: char)
    requires forall i :: 0 <= i < |parts| ==> sep !in parts[i]
    ensures forall i :: 0 <= i < |CleanSegments(parts)| ==> IsCleanSegment(CleanSegments(parts)[i], sep)
  {
    SegmentsAreTrimmedPieces(parts);
    forall i | 0 <= i < |CleanSegments(parts)| ensures IsCleanSegment(CleanSegments(parts)[i], sep) {
      var s := CleanSegments(parts)[i];
      assert s in CleanSegments(parts);
      var j :| 0 <= j < |parts| && s == Trim(parts[j]) && s != [];
      TrimNoSep(parts[j], sep);
      TrimSpec(parts[j]);
    }
  }

  /** The query's segments are clean: each is non-empty, free of `;` and
      not surrounded by whitespace. */
  lemma {:induction false} QuerySegmentsClean(query: string)
    ensures forall i :: 0 <= i < |Segments(query)| ==> IsCleanSegment(Segments(query)[i], ';')
  {
    var parts := Split(query, ';');
    assert Segments(query) == CleanSegments(parts);
    SegmentsAreClean(parts, ';');
  }

  /** The query's segments are exactly the trimmed non-blank pieces between
      its semicolons. */
  lemma {:induction false} QuerySegmentsArePieces(query: string)
    ensures forall s :: s in Segments(query) <==> exists i :: 0 <= i < |Split(query, ';')| && s == Trim(Split(query, ';')[i]) && s != []
  {
    var parts := Split(query, ';');
    assert Segments(query) == CleanSegments(parts);
    SegmentsAreTrimmedPieces(parts);
  }

  // ---------------------------------------------------------------- conditions

  /** AND-ing two lists of conditions is the conjunction of each. */
  lemma MatchesAppend(u: Unicode, b: Book, c1: seq<Condition>, c2: seq<Condition>)
    ensures Matches(u, b, c1 + c2) <==> Matches(u, b, c1) && Matches(u, b, c2)
  {
    if Matches(u, b, c1) && Matches(u, b, c2) {
      forall i | 0 <= i < |c1 + c2| ensures Holds(u, b, (c1 + c2)[i]) {
        if i >= |c1| { assert (c1 + c2)[i] == c2[i - |c1|]; }
      }
    }
    if Matches(u, b, c1 + c2) {
      forall i | 0 <= i < |c1| ensures Holds(u, b, c1[i]) {
        assert (c1 + c2)[i] == c1[i];
      }
      forall i | 0 <= i < |c2| ensures Holds(u, b, c2[i]) {
        assert (c1 + c2)[|c1| + i] == c2[i];
      }
    }
  }

  /** A segment's conditions fail, with BadRequest, exactly when it is malformed. */
  lemma SegmentFails(u: Unicode, segment: string)
    ensures SegmentConditions(u, segment).Err? <==> Malformed(u, segment)
    ensures SegmentConditions(u, segment).Err? ==> SegmentConditions(u, segment).error == BadRequest
  {
  }

  /** Some segment of `init + [last]` is malformed exactly when one of `init`
      is or `last` is. */
  lemma MalformedSnoc(u: Unicode, segs: seq<string>, init: seq<string>)
    requires segs != [] && init == segs[..|segs| - 1]
    ensures (exists i :: 0 <= i < |segs| && Malformed(u, segs[i])) <==>
      (exists i :: 0 <= i < |init| && Malformed(u, init[i])) || Malformed(u, segs[|segs| - 1])
  {
    if exists i :: 0 <= i < |init| && Malformed(u, init[i]) {
      var i :| 0 <= i < |init| && Malformed(u, init[i]);
      assert segs[i] == init[i];
    }
    if exists i :: 0 <= i < |segs| && Malformed(u, segs[i]) {
      var i :| 0 <= i < |segs| && Malformed(u, segs[i]);
      if i < |init| { assert init[i] == segs[i]; }
    }
  }

  /** A list of segments fails exactly when one of them is malformed. */
  lemma {:induction false} ConditionsOfFails(u: Unicode, segs: seq<string>)
    ensures ConditionsOf(u, segs).Err? <==> exists i :: 0 <= i < |segs| && Malformed(u, segs[i])
    ensures ConditionsOf(u, segs).Err? ==> ConditionsOf(u, segs).error == BadRequest
    decreases |segs|
  {
    if segs != [] {
      var init := segs[..|segs| - 1];
      ConditionsOfFails(u, init);
      SegmentFails(u, segs[|segs| - 1]);
      MalformedSnoc(u, segs, init);
    }
  }

  /** Every segment of a list holds of a book. */
  predicate AllHold(u: Unicode, b: Book, segs: seq<string>) {
    forall i :: 0 <= i < |segs| ==> SegmentHolds(u, b, segs[i])
  }

  /** Every segment of `init + [last]` holds exactly when every one of `init`
      does and `last` does. */
  lemma AllHoldSnoc(u: Unicode, b: Book, segs: seq<string>, init: seq<string>)
    requires segs != [] && init == segs[..|segs| - 1]
    ensures AllHold(u, b, segs) <==> AllHold(u, b, init) && SegmentHolds(u, b, segs[|segs| - 1])
  {
    assert segs == init + [segs[|segs| - 1]];
  }

  /** The conditions of a list of segments hold of a book exactly when every
      segment holds of it. */
  lemma {:induction false} ConditionsOfMeaning(u: Unicode, b: Book, segs: seq<string>)
    requires ConditionsOf(u, segs).Ok?
    ensures Matches(u, b, ConditionsOf(u, segs).value) <==> forall i :: 0 <= i < |segs| ==> SegmentHolds(u, b, segs[i])
    decreases |segs|
  {
    if segs != [] {
      var init := segs[..|segs| - 1];
      ConditionsOfMeaning(u, b, init);
      var cs := ConditionsOf(u, init).value;
      var more := SegmentConditions(u, segs[|segs| - 1]).value;
      assert ConditionsOf(u, segs).value == cs + more;
      MatchesAppend(u, b, cs, more);
      AllHoldSnoc(u, b, segs, init);
      assert AllHold(u, b, segs) <==> forall i :: 0 <= i < |segs| ==> SegmentHolds(u, b, segs[i]);
      assert AllHold(u, b, init) <==> forall i :: 0 <= i < |init| ==> SegmentHolds(u, b, init[i]);
    }
  }

  /** A query fails, with BadRequest, exactly when one of its segments has a
      colon but is not `key:value` with a known key (the segments being
      `Segments(query)`, whose shape `QuerySegments` states). */
  lemma {:induction false} QueryFails(u: Unicode, segs: seq<string>)
    ensures QueryConditions(u, segs).Err? <==> exists i :: 0 <= i < |segs| && Malformed(u, segs[i])
    ensures QueryConditions(u, segs).Err? ==> QueryConditions(u, segs).error == BadRequest
  {
    ConditionsOfFails(u, segs);
  }

  /** The conditions of a good query start with `state = VISIBLE`, so every
      book they select is VISIBLE, and they select exactly the VISIBLE books
      that satisfy every segment. */
  lemma {:induction false} QueryMeaning(u: Unicode, segs: seq<string>, b: Book)
    requires QueryConditions(u, segs).Ok?
    ensures QueryConditions(u, segs).value[0] == StateIs(VISIBLE)
    ensures Matches(u, b, QueryConditions(u, segs).value) <==>
      b.state == VISIBLE && forall i :: 0 <= i < |segs| ==> SegmentHolds(u, b, segs[i])
  {
    var cs := ConditionsOf(u, segs).value;
    assert QueryConditions(u, segs).value == [StateIs(VISIBLE)] + cs;
    ConditionsOfMeaning(u, b, segs);
    MatchesAppend(u, b, [StateIs(VISIBLE)], cs);
  }

  /** A tag segment adds exactly one condition: a tag of that type whose name
      equals the lower-cased value, ignoring case. */
  lemma TagSegment(u: Unicode, b: Book, segment: string, t: TagType, v: string)
    requires ':' in segment && ParseTag(u, segment) == Ok((TagKey(t), v))
    ensures SegmentConditions(u, segment) == Ok([HasTag(t, v)])
    ensures v == LowerStr(u, Split(segment, ':')[1])
    ensures SegmentHolds(u, b, segment) <==>
      exists tag :: tag in b.tags && tag.tagType == t && LowerStr(u, tag.name) == LowerStr(u, v)
  {
    var cs := [HasTag(t, v)];
    assert SegmentConditions(u, segment) == Ok(cs);
    if Holds(u, b, HasTag(t, v)) {
      forall i | 0 <= i < |cs| ensures Holds(u, b, cs[i]) { }
    }
    if Matches(u, b, cs) {
      assert Holds(u, b, cs[0]);
    }
  }

  /** A DESC segment adds one description condition per word of its value, so
      a book passes when its description contains every word, ignoring case. */
  lemma DescSegment(u: Unicode, b: Book, segment: string, v: string)
    requires ':' in segment && ParseTag(u, segment) == Ok((DescKey, v))
    ensures var words := Words(u, LowerStr(u, v));
      && SegmentConditions(u, segment).Ok?
      && |SegmentConditions(u, segment).value| == |words|
      && (SegmentHolds(u, b, segment) <==>
           forall i :: 0 <= i < |words| ==> Contains(LowerStr(u, b.description), LowerStr(u, words[i])))
  {
    var words := Words(u, LowerStr(u, v));
    var cs := DescConditions(words);
    assert forall i :: 0 <= i < |words| ==> cs[i] == DescContains(words[i]);
  }

  /** A segment without a colon adds one title condition per word, so a book
      passes when its title contains every word, ignoring case. */
  lemma TitleSegment(u: Unicode, b: Book, segment: string)
    requires ':' !in segment
    ensures var words := Words(u, LowerStr(u, segment));
      && SegmentConditions(u, segment).Ok?
      && |SegmentConditions(u, segment).value| == |words|
      && (SegmentHolds(u, b, segment) <==>
           forall i :: 0 <= i < |words| ==> Contains(LowerStr(u, b.title), LowerStr(u, words[i])))
  {
    var words := Words(u, LowerStr(u, segment));
    var cs := TitleConditions(words);
    assert SegmentConditions(u, segment) == Ok(cs);
    assert forall i :: 0 <= i < |words| ==> cs[i] == TitleContains(words[i]);
    assert Matches(u, b, cs) <==> forall i :: 0 <= i < |words| ==> Holds(u, b, TitleContains(words[i]));
  }

  /** Extending a list of good segments by one segment adds that segment's
      conditions at the end (the step the listing's loop takes). */
  lemma ConditionsOfSnoc(u: Unicode, segs: seq<string>, k: nat)
    requires k < |segs|
    ensures ConditionsOf(u, segs[..k + 1]) ==
      match ConditionsOf(u, segs[..k])
      case Err(e) => Err(e)
      case Ok(cs) =>
        match SegmentConditions(u, segs[k])
        case Err(e) => Err(e)
        case Ok(more) => Ok(cs + more)
  {
    assert segs[..k + 1][..k] == segs[..k];
  }

  /** Once a prefix of the segments fails, the whole list fails. */
  lemma {:induction false} ConditionsOfPrefixFails(u: Unicode, segs: seq<string>, k: nat)
    requires k <= |segs| && ConditionsOf(u, segs[..k]).Err?
    ensures ConditionsOf(u, segs).Err?
    decreases |segs| - k
  {
    if k == |segs| {
      assert segs[..k] == segs;
    } else {
      ConditionsOfSnoc(u, segs, k);
      ConditionsOfPrefixFails(u, segs, k + 1);
    }
  }
}
