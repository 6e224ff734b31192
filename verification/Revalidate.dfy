/**
  Conditional requests (section 13.1 of RFC 9110): when a request that holds a copy is answered 304 rather than with
  the body again.
 */
module Revalidate {
  import opened Results
  import opened Decimal
  import opened HttpDate

  /** What of an answer the decision reads. */
  datatype Answer = Answer(status: nat, etag: Option<string>, lastModified: Option<string>)

  /** The request's `If-None-Match` lines, each `None` when it is not plain text, and its `If-Modified-Since`. */
  datatype Conditions = Conditions(noneMatch: seq<Option<string>>, modifiedSince: Option<string>)

  function Stripped(tag: string): string {
    if |tag| >= 2 && tag[..2] == "W/" then tag[2..] else tag
  }

  predicate Names(tag: string, etag: string) {
    tag == "*" || Stripped(tag) == etag
  }

  predicate LineNames(line: string, etag: string) {
    exists i :: 0 <= i < |Pieces(line, ',')| && Names(Trim(Pieces(line, ',')[i]), etag)
  }

  function DateOf(value: Option<string>): Option<int> {
    match value
    case None => None
    case Some(s) => Parse(s)
  }

  predicate NotLater(modified: Option<int>, since: Option<int>) {
    modified.Some? && since.Some? && modified.value <= since.value
  }

  /** `revalidate`, as the status it answers with. */
  function Revalidated(answer: Answer, c: Conditions): nat {
    if answer.status != 200 then answer.status
    else if c.noneMatch != [] then
      (if answer.etag.Some?
          && exists i :: 0 <= i < |c.noneMatch| && c.noneMatch[i].Some?
              && LineNames(c.noneMatch[i].value, answer.etag.value)
       then 304 else 200)
    else if NotLater(DateOf(answer.lastModified), DateOf(c.modifiedSince)) then 304 else 200
  }

  // ---- dates

  /**
    A client that sends back a date it was given gets 304 exactly when the file is not newer, through the year 9999.
   */
  lemma EchoedDates(etag: Option<string>, modified: nat, since: nat)
    ensures Revalidated(Answer(200, etag, Some(Print(modified))), Conditions([], Some(Print(since)))) == 304
            <==> modified <= since <= LAST_SECOND
  {
    hide Parse, Print;
    DateRoundTrip(modified);
    DateRoundTrip(since);
    YearsToFourDigits(modified);
    YearsToFourDigits(since);
  }

  // ---- tags

  /** The comparison is the weak one of section 8.8.3.2 for every tag exactly when the answer's own tag is strong. */
  lemma WeakComparison(etag: string)
    ensures (forall tag: string :: Names(tag, etag) <==> tag == "*" || Stripped(tag) == Stripped(etag))
            <==> !(|etag| >= 2 && etag[..2] == "W/")
  {
    if |etag| >= 2 && etag[..2] == "W/" {
      var tag := "W/" + Stripped(etag);
      assert tag == etag;
      assert !Names(tag, etag) && Stripped(tag) == Stripped(etag);
    }
  }

  function Joined(tags: seq<string>): string
    requires tags != []
  {
    if |tags| == 1 then tags[0] else tags[0] + [','] + (" " + Joined(tags[1..]))
  }

  predicate Plain(tag: string) {
    tag != [] && NoSpace(tag) && ',' !in tag
  }

  lemma TrimPlain(tag: string)
    requires Plain(tag)
    ensures Trim(tag) == tag && Trim(" " + tag) == tag
  {
    assert (" " + tag)[1..] == tag;
    assert !IsWhitespace(tag[0]) && !IsWhitespace(tag[|tag| - 1]);
  }

  lemma {:induction false} JoinedPieces(tags: seq<string>, lead: string)
    requires tags != [] && (forall i :: 0 <= i < |tags| ==> Plain(tags[i])) && (lead == "" || lead == " ")
    ensures var ps := Pieces(lead + Joined(tags), ',');
            |ps| == |tags| && forall i :: 0 <= i < |tags| ==> Trim(ps[i]) == tags[i]
  {
    hide Trim, Pieces;
    TrimPlain(tags[0]);
    var first := lead + tags[0];
    assert lead == "" ==> first == tags[0];
    if |tags| == 1 {
      PiecesCons(first, "", ',');
    } else {
      var rest := " " + Joined(tags[1..]);
      assert lead + Joined(tags) == first + [','] + rest;
      PiecesCons(first, rest, ',');
      JoinedPieces(tags[1..], " ");
      assert forall i :: 0 < i < |tags| ==> tags[i] == tags[1..][i - 1];
    }
  }

  lemma LineOfTags(tags: seq<string>, etag: string)
    requires tags != [] && forall i :: 0 <= i < |tags| ==> Plain(tags[i])
    ensures LineNames(Joined(tags), etag) <==> exists i :: 0 <= i < |tags| && Names(tags[i], etag)
  {
    hide Trim, Pieces, Names, Joined, Plain;
    JoinedPieces(tags, "");
    assert "" + Joined(tags) == Joined(tags);
    var ps := Pieces(Joined(tags), ',');
    if i :| 0 <= i < |tags| && Names(tags[i], etag) {
      assert Names(Trim(ps[i]), etag);
    }
    if i :| 0 <= i < |ps| && Names(Trim(ps[i]), etag) {
      assert Names(tags[i], etag);
    }
  }

  /** The star, the answer's own tag, or that tag marked weak; a weak tag of the answer's own is never itself named. */
  predicate Holds(tag: string, etag: string) {
    tag == "*" || tag == "W/" + etag || (tag == etag && !("W/" <= tag))
  }

  lemma NamesMeans(tag: string, etag: string)
    ensures Names(tag, etag) <==> Holds(tag, etag)
  {
    if |tag| >= 2 && tag[..2] == "W/" { assert tag == "W/" + tag[2..]; }
    assert ("W/" + etag)[2..] == etag;
  }

  /** Lines of tags as they are sent, and the ones nobody can read. */
  predicate Sent(lines: seq<Option<string>>, lists: seq<seq<string>>) {
    && |lines| == |lists|
    && forall i :: 0 <= i < |lines| && lines[i].Some? ==>
         && lists[i] != [] && (forall j :: 0 <= j < |lists[i]| ==> Plain(lists[i][j]))
         && lines[i].value == Joined(lists[i])
  }

  ghost predicate ListHolds(list: seq<string>, etag: string) {
    exists j :: 0 <= j < |list| && Holds(list[j], etag)
  }

  lemma ListMeans(list: seq<string>, etag: string)
    requires list != [] && forall j :: 0 <= j < |list| ==> Plain(list[j])
    ensures LineNames(Joined(list), etag) <==> ListHolds(list, etag)
  {
    hide LineNames, Joined, Names, Holds, Plain;
    LineOfTags(list, etag);
    forall j | 0 <= j < |list| ensures Names(list[j], etag) <==> Holds(list[j], etag) { NamesMeans(list[j], etag); }
  }

  /**
    Tags decide alone, whatever the dates: 304 exactly when some line that can be read lists a tag that is held, on any
    of its places, by an answer that has a tag.
   */
  lemma ListedTags(lines: seq<Option<string>>, lists: seq<seq<string>>, etag: Option<string>, modified: Option<string>,
                   since: Option<string>)
    requires lines != [] && Sent(lines, lists)
    ensures Revalidated(Answer(200, etag, modified), Conditions(lines, since))
            == if etag.Some? && exists i :: 0 <= i < |lines| && lines[i].Some? && ListHolds(lists[i], etag.value)
               then 304 else 200
  {
    hide LineNames, ListHolds, Joined, Plain, NotLater, DateOf, Parse;
    if etag.Some? {
      forall i | 0 <= i < |lines| && lines[i].Some?
        ensures LineNames(lines[i].value, etag.value) <==> ListHolds(lists[i], etag.value)
      {
        ListMeans(lists[i], etag.value);
      }
    }
  }

  /**
    An answer keeps its status unless it is a 200 and the request names its tag or a date: with neither condition, with
    tags against an answer that has none, and with a date against an answer that has none or an unreadable one.
   */
  lemma KeepsItsStatus(answer: Answer, c: Conditions)
    requires || answer.status != 200
             || (c.noneMatch == [] && c.modifiedSince.None?)
             || (c.noneMatch != [] && answer.etag.None?)
             || (c.noneMatch == [] && (DateOf(answer.lastModified).None? || DateOf(c.modifiedSince).None?))
    ensures Revalidated(answer, c) == answer.status
  {
  }
}
