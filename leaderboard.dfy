/** The high-score table behind the game's leaderboard: one record per client IP, a POST that
    keeps the higher score, and GET queries for the global top ten and for one IP. */
module Leaderboard {
  import opened Strings

  /** A stored high score. The score is any finite number the client sent, fractions
      included; `createdAt` is the save time in milliseconds. */
  datatype Record = Record(name: string, score: real, userIP: string, createdAt: int)

  /** The replies of the route. `MissingFields` is the 400 reply; the others are 200. */
  datatype Reply =
    | MissingFields
    | NotHighEnough(currentHighScore: real)
    | Updated(updatedScore: Record, topScores: seq<Record>)
    | Created(newScore: Record, topScores: seq<Record>)
    | Listing(scores: seq<Record>)

  function Status(reply: Reply): (code: int)
    ensures code == 400 <==> reply.MissingFields?
    ensures code == 400 || code == 200
  {
    if reply.MissingFields? then 400 else 200
  }

  /** The success flag of a reply: false for a rejected or malformed POST. */
  predicate Success(reply: Reply) {
    reply.Updated? || reply.Created? || reply.Listing?
  }

  /** The query order `{ score: -1, createdAt: -1 }`: `a` may be listed before `b`. */
  predicate Ranks(a: Record, b: Record) {
    a.score > b.score || (a.score == b.score && a.createdAt >= b.createdAt)
  }

  predicate Sorted(s: seq<Record>) {
    forall i, j :: 0 <= i < j < |s| ==> Ranks(s[i], s[j])
  }

  function Insert(x: Record, s: seq<Record>): (r: seq<Record>)
    requires Sorted(s)
    ensures Sorted(r)
    ensures multiset(r) == multiset(s) + multiset{x}
  {
    if s == [] then [x]
    else if Ranks(x, s[0]) then
      SortedCons(x, s);
      [x] + s
    else
      var rest := Insert(x, s[1..]);
      assert s == [s[0]] + s[1..];
      HeadRanksRest(s[0], x, s[1..], rest);
      SortedCons(s[0], rest);
      [s[0]] + rest
  }

  /** Putting a record that ranks above every element in front of a sorted list keeps it
      sorted. */
  lemma SortedCons(h: Record, t: seq<Record>)
    requires Sorted(t)
    requires forall y | y in t :: Ranks(h, y)
    ensures Sorted([h] + t)
  {
    forall i, j | 0 <= i < j < |[h] + t|
      ensures Ranks(([h] + t)[i], ([h] + t)[j])
    {
      assert ([h] + t)[j] == t[j - 1];
      if i > 0 {
        assert ([h] + t)[i] == t[i - 1];
      }
    }
  }

  /** The head of a sorted list ranks above every element of `rest`, when `rest` holds the
      tail and a record the head ranks above. */
  lemma HeadRanksRest(h: Record, x: Record, t: seq<Record>, rest: seq<Record>)
    requires Sorted([h] + t) && !Ranks(x, h)
    requires multiset(rest) == multiset(t) + multiset{x}
    ensures forall y | y in rest :: Ranks(h, y)
  {
    forall y | y in rest
      ensures Ranks(h, y)
    {
      assert y in multiset(rest);
      if y != x {
        assert ([h] + t)[0] == h;
        assert y in multiset(t);
        var j :| 0 <= j < |t| && t[j] == y;
        assert ([h] + t)[j + 1] == y;
      }
    }
  }

  /** The records in query order; records that tie on both keys keep their stored order. */
  function SortRecords(s: seq<Record>): (r: seq<Record>)
    ensures Sorted(r)
    ensures multiset(r) == multiset(s)
  {
    if s == [] then []
    else
      assert s == [s[0]] + s[1..];
      Insert(s[0], SortRecords(s[1..]))
  }

  /** `find().sort({ score: -1, createdAt: -1 }).limit(10)`. */
  function TopTen(rs: seq<Record>): (top: seq<Record>)
    ensures |top| == if |rs| < 10 then |rs| else 10
    ensures Sorted(top)
    ensures multiset(top) <= multiset(rs)
  {
    var sorted := SortRecords(rs);
    var k := if |rs| < 10 then |rs| else 10;
    assert sorted == sorted[..k] + sorted[k..];
    assert multiset(sorted) == multiset(sorted[..k]) + multiset(sorted[k..]);
    sorted[..k]
  }

  /** No record left out of the top ten ranks strictly above one that is in it. */
  lemma TopTenIsTop(rs: seq<Record>, x: Record, t: Record)
    requires x in rs && x !in TopTen(rs) && t in TopTen(rs)
    ensures Ranks(t, x)
  {
    var sorted := SortRecords(rs);
    var k := if |rs| < 10 then |rs| else 10;
    assert x in multiset(sorted);
    var j :| 0 <= j < |sorted| && sorted[j] == x;
    var i :| 0 <= i < k && sorted[i] == t;
    assert j >= k;
  }

  /** The records of client `ip`, in stored order (`find({ userIP: ip })`). */
  function OfIP(rs: seq<Record>, ip: string): (r: seq<Record>)
    ensures |r| <= |rs|
  {
    if rs == [] then []
    else (if rs[0].userIP == ip then [rs[0]] else []) + OfIP(rs[1..], ip)
  }

  /** `OfIP` keeps every record of `ip`, as often as it is stored, and nothing else. */
  lemma {:induction false} OfIPCounts(rs: seq<Record>, ip: string)
    ensures forall x :: multiset(OfIP(rs, ip))[x] == if x.userIP == ip then multiset(rs)[x] else 0
    decreases |rs|
  {
    if rs != [] {
      assert rs == [rs[0]] + rs[1..];
      OfIPCounts(rs[1..], ip);
    }
  }

  /** The GET reply for one client: every record of that IP and only those, in query order. */
  function ForIP(rs: seq<Record>, ip: string): (r: seq<Record>)
    ensures Sorted(r)
    ensures forall x :: x in r <==> x in rs && x.userIP == ip
    ensures forall x :: multiset(r)[x] == if x.userIP == ip then multiset(rs)[x] else 0
  {
    OfIPCounts(rs, ip);
    SortRecords(OfIP(rs, ip))
  }

  /** `findOne({ userIP }).sort({ score: -1 })`: the index of a highest-scoring record of
      `ip`, the first one among equals. */
  function BestIndex(rs: seq<Record>, ip: string): (i: Option<nat>)
    ensures i.Some? ==> i.value < |rs|
  {
    if rs == [] then None
    else
      var n := |rs| - 1;
      var b := BestIndex(rs[..n], ip);
      if rs[n].userIP != ip then b
      else if b.None? || rs[b.value].score < rs[n].score then Some(n)
      else b
  }

  /** `BestIndex` finds a record of `ip` exactly when there is one, and what it finds scores
      at least as high as every record of `ip`. */
  lemma {:induction false} BestIndexSpec(rs: seq<Record>, ip: string)
    ensures var i := BestIndex(rs, ip);
            && (i.None? <==> forall j :: 0 <= j < |rs| ==> rs[j].userIP != ip)
            && (i.Some? ==> rs[i.value].userIP == ip)
            && (i.Some? ==> forall j :: 0 <= j < |rs| && rs[j].userIP == ip ==> rs[j].score <= rs[i.value].score)
    decreases |rs|
  {
    if rs != [] {
      var n := |rs| - 1;
      BestIndexSpec(rs[..n], ip);
      assert forall j :: 0 <= j < n ==> rs[..n][j] == rs[j];
    }
  }

  /** The best score of `ip`, if it has a record. */
  function Best(rs: seq<Record>, ip: string): Option<real> {
    match BestIndex(rs, ip)
    case None => None
    case Some(i) => Some(rs[i].score)
  }

  /** Option order with `None` below every score. */
  predicate AtMost(a: Option<real>, b: Option<real>) {
    a.None? || (b.Some? && a.value <= b.value)
  }

  /** The outcome of a POST: the new table and the reply. */
  datatype Outcome = Outcome(records: seq<Record>, reply: Reply)

  /** A POST with body fields `name`, `score` (any finite JSON number; `None` when not a
      number) and `userIP` at time `now`; the empty string stands for a falsy field. */
  function Submit(rs: seq<Record>, name: string, score: Option<real>, userIP: string, now: int): Outcome {
    if name == "" || score.None? || userIP == "" then Outcome(rs, MissingFields)
    else match BestIndex(rs, userIP)
      case Some(i) =>
        if rs[i].score >= score.value then Outcome(rs, NotHighEnough(rs[i].score))
        else
          var updated := Record(Trim(name), score.value, userIP, now);
          var table := rs[i := updated];
          Outcome(table, Updated(updated, TopTen(table)))
      case None =>
        var created := Record(Trim(name), score.value, userIP, now);
        var table := rs + [created];
        Outcome(table, Created(created, TopTen(table)))
  }

  /** A falsy name, a score that is not a number or a falsy IP is refused with 400 and leaves
      the table as it was; every other request is answered with 200. */
  lemma MalformedLeavesTable(rs: seq<Record>, name: string, score: Option<real>, userIP: string, now: int)
    ensures Submit(rs, name, score, userIP, now).reply.MissingFields?
            <==> name == "" || score.None? || userIP == ""
    ensures Submit(rs, name, score, userIP, now).reply.MissingFields?
            ==> Submit(rs, name, score, userIP, now).records == rs
  {
  }

  /** A well-formed POST whose score does not beat the IP's best (ties included) is refused,
      reports that best, and leaves the table as it was. */
  lemma NotHighEnoughIff(rs: seq<Record>, name: string, s: real, userIP: string, now: int)
    requires name != "" && userIP != ""
    ensures var o := Submit(rs, name, Some(s), userIP, now);
            (o.reply.NotHighEnough? <==> Best(rs, userIP).Some? && s <= Best(rs, userIP).value)
            && (o.reply.NotHighEnough? ==> o.records == rs && o.reply.currentHighScore == Best(rs, userIP).value)
  {
  }

  /** A winning score for a known IP overwrites that IP's best record in place: same length,
      the record at that index carries the trimmed name, the score and the time, and every
      other record is untouched. */
  lemma UpdateInPlace(rs: seq<Record>, name: string, s: real, userIP: string, now: int)
    requires name != "" && userIP != ""
    requires Best(rs, userIP).Some? && Best(rs, userIP).value < s
    ensures var o := Submit(rs, name, Some(s), userIP, now);
            var i := BestIndex(rs, userIP).value;
            && o.reply.Updated?
            && |o.records| == |rs|
            && o.records[i] == Record(Trim(name), s, userIP, now)
            && (forall j :: 0 <= j < |rs| && j != i ==> o.records[j] == rs[j])
  {
    BestIndexSpec(rs, userIP);
  }

  /** A well-formed POST from an unknown IP appends exactly one record. */
  lemma CreateAppends(rs: seq<Record>, name: string, s: real, userIP: string, now: int)
    requires name != "" && userIP != ""
    requires forall j :: 0 <= j < |rs| ==> rs[j].userIP != userIP
    ensures var o := Submit(rs, name, Some(s), userIP, now);
            o.reply.Created? && o.records == rs + [Record(Trim(name), s, userIP, now)]
  {
    BestIndexSpec(rs, userIP);
  }

  /** A record of `ip` that no other record of `ip` beats carries the best score. */
  lemma BestIsMaximum(rs: seq<Record>, ip: string, i: nat)
    requires i < |rs| && rs[i].userIP == ip
    requires forall j :: 0 <= j < |rs| && rs[j].userIP == ip ==> rs[j].score <= rs[i].score
    ensures Best(rs, ip) == Some(rs[i].score)
  {
    BestIndexSpec(rs, ip);
  }

  /** The best score of `ip` is at least the score of each of its records. */
  lemma BestAtLeast(rs: seq<Record>, ip: string, j: nat)
    requires j < |rs| && rs[j].userIP == ip
    ensures Best(rs, ip).Some? && rs[j].score <= Best(rs, ip).value
  {
    BestIndexSpec(rs, ip);
  }

  /** After an accepted POST the IP's best score is the submitted score. */
  lemma AcceptedBecomesBest(rs: seq<Record>, name: string, s: real, userIP: string, now: int)
    requires Success(Submit(rs, name, Some(s), userIP, now).reply)
    ensures Best(Submit(rs, name, Some(s), userIP, now).records, userIP) == Some(s)
  {
    var created := Record(Trim(name), s, userIP, now);
    BestIndexSpec(rs, userIP);
    match BestIndex(rs, userIP)
    case Some(i) =>
      var table := rs[i := created];
      assert Submit(rs, name, Some(s), userIP, now).records == table;
      BestIsMaximum(table, userIP, i);
    case None =>
      var table := rs + [created];
      assert Submit(rs, name, Some(s), userIP, now).records == table;
      BestIsMaximum(table, userIP, |rs|);
  }

  /** No POST lowers the best score of any IP, the poster's or another's. */
  lemma BestNeverDecreases(rs: seq<Record>, name: string, score: Option<real>, userIP: string, now: int, ip: string)
    ensures AtMost(Best(rs, ip), Best(Submit(rs, name, score, userIP, now).records, ip))
  {
    var t := Submit(rs, name, score, userIP, now).records;
    match BestIndex(rs, ip)
    case None =>
    case Some(b) =>
      BestIndexSpec(rs, ip);
      if name != "" && score.Some? && userIP != "" {
        BestIndexSpec(rs, userIP);
        match BestIndex(rs, userIP)
        case Some(i) =>
          if rs[i].score < score.value {
            assert t == rs[i := Record(Trim(name), score.value, userIP, now)];
            if b == i {
              BestAtLeast(t, ip, i);
            } else {
              BestAtLeast(t, ip, b);
            }
          }
        case None =>
          assert t == rs + [Record(Trim(name), score.value, userIP, now)];
          BestAtLeast(t, ip, b);
      }
  }

  /** The table after a POST, case by case: unchanged, one record overwritten, or one
      record appended. */
  lemma SubmitTable(rs: seq<Record>, name: string, score: Option<real>, userIP: string, now: int)
    ensures var t := Submit(rs, name, score, userIP, now).records;
            || t == rs
            || (score.Some? && BestIndex(rs, userIP).Some?
                && t == rs[BestIndex(rs, userIP).value := Record(Trim(name), score.value, userIP, now)])
            || (score.Some? && t == rs + [Record(Trim(name), score.value, userIP, now)])
  {
  }

  /** Records of other IPs are never touched by a POST. */
  lemma OtherIPsUntouched(rs: seq<Record>, name: string, score: Option<real>, userIP: string, now: int, ip: string)
    requires ip != userIP
    ensures OfIP(Submit(rs, name, score, userIP, now).records, ip) == OfIP(rs, ip)
  {
    var t := Submit(rs, name, score, userIP, now).records;
    SubmitTable(rs, name, score, userIP, now);
    BestIndexSpec(rs, userIP);
    if t != rs && score.Some? {
      var created := Record(Trim(name), score.value, userIP, now);
      if BestIndex(rs, userIP).Some? && t == rs[BestIndex(rs, userIP).value := created] {
        OfIPUpdate(rs, BestIndex(rs, userIP).value, created, ip);
      } else {
        OfIPAppend(rs, [created], ip);
      }
    }
  }

  lemma {:induction false} OfIPAppend(a: seq<Record>, b: seq<Record>, ip: string)
    ensures OfIP(a + b, ip) == OfIP(a, ip) + OfIP(b, ip)
    decreases |a|
  {
    if a == [] {
      assert a + b == b;
    } else {
      var head := if a[0].userIP == ip then [a[0]] else [];
      assert (a + b)[0] == a[0] && (a + b)[1..] == a[1..] + b;
      assert OfIP(a + b, ip) == head + OfIP(a[1..] + b, ip);
      OfIPAppend(a[1..], b, ip);
      assert OfIP(a, ip) == head + OfIP(a[1..], ip);
    }
  }

  lemma {:induction false} OfIPUpdate(rs: seq<Record>, i: nat, x: Record, ip: string)
    requires i < |rs| && rs[i].userIP != ip && x.userIP != ip
    ensures OfIP(rs[i := x], ip) == OfIP(rs, ip)
    decreases |rs|
  {
    if i > 0 {
      assert rs[i := x][1..] == rs[1..][i - 1 := x];
      OfIPUpdate(rs[1..], i - 1, x, ip);
    }
  }

  /** At most one record per IP. */
  predicate OnePerIP(rs: seq<Record>) {
    forall i, j :: 0 <= i < j < |rs| ==> rs[i].userIP != rs[j].userIP
  }

  /** A table that holds at most one record per IP keeps that shape after any POST. */
  lemma SubmitKeepsOnePerIP(rs: seq<Record>, name: string, score: Option<real>, userIP: string, now: int)
    requires OnePerIP(rs)
    ensures OnePerIP(Submit(rs, name, score, userIP, now).records)
  {
    if name != "" && score.Some? && userIP != "" {
      BestIndexSpec(rs, userIP);
      var created := Record(Trim(name), score.value, userIP, now);
      match BestIndex(rs, userIP)
      case Some(i) =>
        if rs[i].score < score.value {
          OnePerIPOverwrite(rs, i, created);
        }
      case None =>
        OnePerIPAppend(rs, created);
    }
  }

  lemma OnePerIPOverwrite(rs: seq<Record>, i: nat, x: Record)
    requires OnePerIP(rs) && i < |rs| && x.userIP == rs[i].userIP
    ensures OnePerIP(rs[i := x])
  {
    var t := rs[i := x];
    forall j, k | 0 <= j < k < |t|
      ensures t[j].userIP != t[k].userIP
    {
      assert t[j].userIP == rs[j].userIP && t[k].userIP == rs[k].userIP;
    }
  }

  lemma OnePerIPAppend(rs: seq<Record>, x: Record)
    requires OnePerIP(rs)
    requires forall j :: 0 <= j < |rs| ==> rs[j].userIP != x.userIP
    ensures OnePerIP(rs + [x])
  {
    forall j, k | 0 <= j < k < |rs + [x]|
      ensures (rs + [x])[j].userIP != (rs + [x])[k].userIP
    {
      assert (rs + [x])[j] == rs[j];
      if k < |rs| {
        assert (rs + [x])[k] == rs[k];
      }
    }
  }

  /** The leaderboard table: the stored records, updated in place by POST. */
  class ScoreTable {
    var records: seq<Record>

    constructor()
      ensures records == []
    {
      records := [];
    }

    /** POST: validate, look up the IP's best record, then reject, overwrite that record's
        fields, or insert a new record. The reply carries the new top ten. */
    method Post(name: string, score: Option<real>, userIP: string, now: int) returns (reply: Reply)
      modifies this
      ensures records == Submit(old(records), name, score, userIP, now).records
      ensures reply == Submit(old(records), name, score, userIP, now).reply
    {
      if name == "" || score.None? || userIP == "" {
        return MissingFields;
      }
      var existing := BestIndex(records, userIP);
      BestIndexSpec(records, userIP);
      if existing.Some? {
        var i := existing.value;
        if records[i].score >= score.value {
          return NotHighEnough(records[i].score);
        }
        var updated := records[i].(score := score.value, name := Trim(name), createdAt := now);
        records := records[i := updated];
        reply := Updated(updated, TopTen(records));
      } else {
        var created := Record(Trim(name), score.value, userIP, now);
        records := records + [created];
        reply := Created(created, TopTen(records));
      }
    }

    /** GET: with a (truthy) `ip`, every record of that IP and only those, as often as stored;
        without one, the global top ten. Both lists are in query order. */
    method Get(ip: string) returns (reply: Reply)
      ensures reply.Listing? && Sorted(reply.scores)
      ensures ip != "" ==> forall x :: x in reply.scores <==> x in records && x.userIP == ip
      ensures ip == "" ==> |reply.scores| <= 10 && multiset(reply.scores) <= multiset(records)
      ensures ip == "" && |records| >= 10 ==> |reply.scores| == 10
      ensures ip != "" ==> reply.scores == ForIP(records, ip)
      ensures ip == "" ==> reply.scores == TopTen(records)
    {
      if ip != "" {
        reply := Listing(ForIP(records, ip));
      } else {
        reply := Listing(TopTen(records));
      }
    }
  }
}
