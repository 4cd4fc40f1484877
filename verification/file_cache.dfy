/** The metadata file of the file cache: an indented JSON object of four string members. */
module MetaFile {
  import opened Core
  import Text

  datatype Meta = Meta(host: string, issuer: string, notBefore: Time, notAfter: Time)

  const OPENING := "{\n  \"host\": "
  const LABELS := [OPENING, ",\n  \"issuer\": ", ",\n  \"not_before\": ", ",\n  \"not_after\": "]
  const CLOSING := "\n}"

  // ---------------------------------------------------------------- quoted strings

  function Escape(x: string): string {
    if x == [] then []
    else (if x[0] == '"' || x[0] == '\\' then ['\\', x[0]] else [x[0]]) + Escape(x[1..])
  }

  function Quote(x: string): string {
    "\"" + Escape(x) + "\""
  }

  datatype Parsed<T> = Parsed(value: T, rest: string)

  /** The characters up to the closing quote. */
  function Characters(s: string): Option<Parsed<string>> {
    if s == [] then None
    else if s[0] == '"' then Some(Parsed([], s[1..]))
    else if s[0] == '\\' && |s| == 1 then None
    else
      var (c, tail) := if s[0] == '\\' then (s[1], s[2..]) else (s[0], s[1..]);
      var r := Characters(tail);
      if r.None? then None else Some(Parsed([c] + r.value.value, r.value.rest))
  }

  function Unquote(s: string): Option<Parsed<string>> {
    if s == [] || s[0] != '"' then None else Characters(s[1..])
  }

  lemma {:induction false} CharactersOf(x: string, rest: string)
    ensures Characters(Escape(x) + "\"" + rest) == Some(Parsed(x, rest))
  {
    var s := Escape(x) + "\"" + rest;
    if x == [] {
      assert s[1..] == rest;
    } else {
      var tail := Escape(x[1..]) + "\"" + rest;
      CharactersOf(x[1..], rest);
      if x[0] == '"' || x[0] == '\\' {
        assert s[0] == '\\' && s[1] == x[0] && s[2..] == tail;
      } else {
        assert s[0] == x[0] && s[1..] == tail;
      }
      assert [x[0]] + x[1..] == x;
    }
  }

  lemma {:induction false} CharactersCut(x: string, p: string)
    requires p <= Escape(x)
    ensures Characters(p).None?
  {
    if p != [] {
      var step := if x[0] == '"' || x[0] == '\\' then 2 else 1;
      assert p[0] == Escape(x)[0];
      if step <= |p| {
        assert Escape(x)[step..] == Escape(x[1..]);
        assert step == 2 ==> p[1] == Escape(x)[1];
        CharactersCut(x[1..], p[step..]);
      }
    }
  }

  lemma QuoteParses(x: string, rest: string)
    ensures Unquote(Quote(x) + rest) == Some(Parsed(x, rest))
  {
    CharactersOf(x, rest);
    assert (Quote(x) + rest)[1..] == Escape(x) + "\"" + rest;
  }

  lemma QuoteCut(x: string, p: string)
    requires p < Quote(x)
    ensures Unquote(p).None?
  {
    if p != [] {
      assert p[0] == Quote(x)[0];
      assert Quote(x)[1..] == Escape(x) + "\"";
      assert p[1..] <= Escape(x);
      CharactersCut(x, p[1..]);
    }
  }

  // ---------------------------------------------------------------- labelled members

  function EncodeMembers(labels: seq<string>, values: seq<string>): string
    requires |labels| == |values|
  {
    if labels == [] then "" else labels[0] + Quote(values[0]) + EncodeMembers(labels[1..], values[1..])
  }

  function DecodeMembers(labels: seq<string>, s: string): Option<Parsed<seq<string>>> {
    if labels == [] then Some(Parsed([], s))
    else if !(labels[0] <= s) then None
    else
      var v := Unquote(s[|labels[0]|..]);
      if v.None? then None
      else
        var r := DecodeMembers(labels[1..], v.value.rest);
        if r.None? then None else Some(Parsed([v.value.value] + r.value.value, r.value.rest))
  }

  /** One member is read off the front. */
  lemma MemberParses(labels: seq<string>, value: string, tail: string)
    requires labels != []
    ensures DecodeMembers(labels, labels[0] + (Quote(value) + tail)) ==
      var r := DecodeMembers(labels[1..], tail);
      if r.None? then None else Some(Parsed([value] + r.value.value, r.value.rest))
  {
    var s := labels[0] + (Quote(value) + tail);
    assert s[|labels[0]|..] == Quote(value) + tail;
    hide Quote, Unquote;
    QuoteParses(value, tail);
  }

  lemma {:induction false} MembersParse(labels: seq<string>, values: seq<string>, rest: string)
    requires |labels| == |values|
    ensures DecodeMembers(labels, EncodeMembers(labels, values) + rest) == Some(Parsed(values, rest))
  {
    if labels != [] {
      var body := EncodeMembers(labels[1..], values[1..]);
      assert EncodeMembers(labels, values) == labels[0] + Quote(values[0]) + body;
      hide *;
      Regroup(labels[0], Quote(values[0]), body, rest);
      MemberParses(labels, values[0], body + rest);
      MembersParse(labels[1..], values[1..], rest);
      assert [values[0]] + values[1..] == values;
    } else {
      assert values == [] && "" + rest == rest;
    }
  }

  lemma Regroup(a: string, b: string, c: string, d: string)
    ensures a + b + c + d == a + (b + (c + d))
  {
  }

  /** Whatever is cut off the end, the members no longer parse. */
  lemma {:induction false} MembersCut(labels: seq<string>, values: seq<string>, p: string)
    requires |labels| == |values| && p < EncodeMembers(labels, values)
    ensures DecodeMembers(labels, p).None?
  {
    if labels != [] && labels[0] <= p {
      var tail, rest := EncodeMembers(labels[1..], values[1..]), p[|labels[0]|..];
      assert EncodeMembers(labels, values)[|labels[0]|..] == Quote(values[0]) + tail;
      assert rest < Quote(values[0]) + tail;
      if |rest| < |Quote(values[0])| {
        QuoteCut(values[0], rest);
      } else {
        var cut := rest[|Quote(values[0])|..];
        assert rest == Quote(values[0]) + cut && cut < tail;
        QuoteParses(values[0], cut);
        MembersCut(labels[1..], values[1..], cut);
      }
    }
  }

  // ---------------------------------------------------------------- the file

  /** A time as text, down to the nanosecond. */
  function TimeText(t: Time): string {
    if t < 0 then "-" + Text.Decimal(-t) else Text.Decimal(t)
  }

  predicate AllDigits(s: string) {
    s != [] && forall k :: 0 <= k < |s| ==> Text.IsDigit(s[k])
  }

  function ParseTime(s: string): Option<Time> {
    if AllDigits(s) then Some(Text.Numeral(s))
    else if s != [] && s[0] == '-' && AllDigits(s[1..]) then
      var t: Time := -(Text.Numeral(s[1..]) as int);
      Some(t)
    else None
  }

  lemma TimeParses(t: Time)
    ensures ParseTime(TimeText(t)) == Some(t)
  {
    if t < 0 {
      assert TimeText(t)[1..] == Text.Decimal(-t);
      assert !Text.IsDigit(TimeText(t)[0]);
      assert AllDigits(Text.Decimal(-t));
      Text.NumeralDecimal(-t);
      hide Text.Numeral, Text.Decimal, AllDigits;
    } else {
      assert AllDigits(Text.Decimal(t));
      Text.NumeralDecimal(t);
      hide Text.Numeral, Text.Decimal, AllDigits;
    }
  }

  function Values(m: Meta): seq<string> {
    [m.host, m.issuer, TimeText(m.notBefore), TimeText(m.notAfter)]
  }

  function Encode(m: Meta): Bytes {
    EncodeMembers(LABELS, Values(m)) + CLOSING
  }

  function Decode(s: Bytes): Option<Meta> {
    var r := DecodeMembers(LABELS, s);
    if r.None? || |r.value.value| != 4 || r.value.rest != CLOSING then None
    else
      var v := r.value.value;
      var from, to := ParseTime(v[2]), ParseTime(v[3]);
      if from.None? || to.None? then None else Some(Meta(v[0], v[1], from.value, to.value))
  }

  lemma EncodeDecodes(m: Meta)
    ensures Decode(Encode(m)) == Some(m)
  {
    MembersParse(LABELS, Values(m), CLOSING);
    TimeParses(m.notBefore);
    TimeParses(m.notAfter);
  }

  /** A metadata file that has been cut short anywhere is not accepted. */
  lemma CutIsRejected(m: Meta, p: Bytes)
    requires p < Encode(m)
    ensures Decode(p).None?
  {
    var body := EncodeMembers(LABELS, Values(m));
    if |p| < |body| {
      assert p < body;
      MembersCut(LABELS, Values(m), p);
    } else {
      assert p == body + p[|body|..];
      MembersParse(LABELS, Values(m), p[|body|..]);
    }
  }
}

/** The file cache: one directory a host, written file by file with the metadata last. */
module FileCache {
  import opened Core
  import opened MetaFile

  type Dir = map<string, Bytes>

  const CERT := "cert.pem"
  const KEY := "key.pem"
  const CA := "ca.pem"
  const META := "meta.json"

  datatype FileWrite = FileWrite(name: string, content: Bytes)

  function MetaOf(c: Certificate): Meta {
    Meta(c.host, c.issuerName, c.notBefore, c.notAfter)
  }

  /** The PEM files; the CA file only if there is a CA. */
  function DataWrites(c: Certificate): seq<FileWrite> {
    [FileWrite(CERT, c.certPEM), FileWrite(KEY, c.keyPEM)] + (if |c.caCertPEM| > 0 then [FileWrite(CA, c.caCertPEM)] else [])
  }

  /** What `store` writes, in order. */
  function Writes(c: Certificate): seq<FileWrite> {
    DataWrites(c) + [FileWrite(META, Encode(MetaOf(c)))]
  }

  /** How far the writes got: so many complete, and of the next one perhaps a beginning. */
  datatype Progress = Progress(done: nat, torn: Option<Bytes>)

  predicate Possible(ws: seq<FileWrite>, p: Progress) {
    p.done <= |ws| && (p.torn.Some? ==> p.done < |ws| && p.torn.value <= ws[p.done].content)
  }

  /** The metadata, and so everything, has been written. */
  predicate Finished(ws: seq<FileWrite>, p: Progress)
    requires Possible(ws, p)
  {
    p.done == |ws| || (p.done == |ws| - 1 && p.torn == Some(ws[p.done].content))
  }

  function Put(d: Dir, w: FileWrite): Dir {
    d[w.name := w.content]
  }

  function Written(d: Dir, ws: seq<FileWrite>): Dir {
    if ws == [] then d else Put(Written(d, ws[..|ws| - 1]), ws[|ws| - 1])
  }

  function PartlyWritten(d: Dir, ws: seq<FileWrite>, p: Progress): Dir
    requires Possible(ws, p)
  {
    var d' := Written(d, ws[..p.done]);
    if p.torn.None? then d' else d'[ws[p.done].name := p.torn.value]
  }

  function Load(d: Dir): Option<Certificate> {
    if META !in d || Decode(d[META]).None? || CERT !in d || KEY !in d then None
    else
      var m := Decode(d[META]).value;
      Some(Certificate(m.host, d[CERT], d[KEY], if CA in d then d[CA] else "", m.notBefore, m.notAfter, m.issuer))
  }

  // ---------------------------------------------------------------- one store

  /** Until the last write nothing has touched the metadata. */
  lemma MetaUntouched(d: Dir, c: Certificate, k: nat)
    requires k < |Writes(c)|
    ensures var d' := Written(d, Writes(c)[..k]); META in d' <==> META in d
    ensures META in d ==> Written(d, Writes(c)[..k])[META] == d[META]
  {
    var ws := Writes(c);
    NoMeta(d, ws[..k]);
  }

  lemma {:induction false} NoMeta(d: Dir, ws: seq<FileWrite>)
    requires forall k :: 0 <= k < |ws| ==> ws[k].name != META
    ensures (META in Written(d, ws) <==> META in d) && (META in d ==> Written(d, ws)[META] == d[META])
  {
    if ws != [] {
      NoMeta(d, ws[..|ws| - 1]);
    }
  }

  lemma WrittenSnoc(d: Dir, ws: seq<FileWrite>, w: FileWrite)
    ensures Written(d, ws + [w]) == Put(Written(d, ws), w)
  {
    assert (ws + [w])[..|ws|] == ws;
  }

  lemma NextWritten(d: Dir, ws: seq<FileWrite>, k: nat)
    requires k < |ws|
    ensures Written(d, ws[..k + 1]) == Put(Written(d, ws[..k]), ws[k])
  {
    assert ws[..k + 1] == ws[..k] + [ws[k]];
    WrittenSnoc(d, ws[..k], ws[k]);
  }

  function DataWritten(d: Dir, c: Certificate): Dir {
    var d' := d[CERT := c.certPEM][KEY := c.keyPEM];
    if |c.caCertPEM| > 0 then d'[CA := c.caCertPEM] else d'
  }

  lemma TwoWrites(d: Dir, a: FileWrite, b: FileWrite)
    ensures Written(d, [a, b]) == Put(Put(d, a), b)
  {
    WrittenSnoc(d, [], a);
    WrittenSnoc(d, [a], b);
    assert [] + [a] == [a] && [a] + [b] == [a, b];
  }

  lemma DataAre(d: Dir, c: Certificate)
    ensures Written(d, DataWrites(c)) == DataWritten(d, c)
  {
    var a, b, x := FileWrite(CERT, c.certPEM), FileWrite(KEY, c.keyPEM), FileWrite(CA, c.caCertPEM);
    TwoWrites(d, a, b);
    if |c.caCertPEM| > 0 {
      WrittenSnoc(d, [a, b], x);
    } else {
      assert DataWrites(c) == [a, b];
    }
  }

  lemma Shorter(p: Bytes, q: Bytes)
    requires p <= q && p != q
    ensures p < q
  {
  }

  /** A complete store over any directory: what `load` then returns is the certificate, but for a CA
      file that was there before and that a certificate without CA does not replace. */
  lemma FullStore(d: Dir, c: Certificate, p: Progress)
    requires Possible(Writes(c), p) && Finished(Writes(c), p)
    ensures Load(PartlyWritten(d, Writes(c), p)) == Some(c.(caCertPEM := if |c.caCertPEM| > 0 || CA !in d then c.caCertPEM else d[CA]))
    ensures CERT in PartlyWritten(d, Writes(c), p) && KEY in PartlyWritten(d, Writes(c), p)
  {
    var ws, last := Writes(c), FileWrite(META, Encode(MetaOf(c)));
    assert ws == DataWrites(c) + [last];
    assert ws[..|ws|] == ws && ws[..|ws| - 1] == DataWrites(c);
    WrittenSnoc(d, DataWrites(c), last);
    DataAre(d, c);
    EncodeDecodes(MetaOf(c));
    assert PartlyWritten(d, ws, p) == DataWritten(d, c)[META := Encode(MetaOf(c))];
    assert |c.caCertPEM| == 0 ==> c.caCertPEM == "";
  }

  /** The stored certificate comes back exactly if it brings its own CA or finds none left over. */
  lemma RoundTripIff(d: Dir, c: Certificate)
    ensures Load(PartlyWritten(d, Writes(c), Progress(|Writes(c)|, None))) == Some(c) <==>
      |c.caCertPEM| > 0 || CA !in d || d[CA] == ""
  {
    FullStore(d, c, Progress(|Writes(c)|, None));
  }

  /** A store that did not finish: either the metadata is still what it was, or it is there and
      cannot be read. */
  lemma Unfinished(d: Dir, c: Certificate, p: Progress)
    requires Possible(Writes(c), p) && !Finished(Writes(c), p)
    ensures var d' := PartlyWritten(d, Writes(c), p);
      || (META in d' && Decode(d'[META]).None?)
      || ((META in d' <==> META in d) && (META in d ==> d'[META] == d[META]))
  {
    var ws := Writes(c);
    MetaUntouched(d, c, p.done);
    if p.torn.Some? && p.done == |ws| - 1 {
      assert ws[p.done] == FileWrite(META, Encode(MetaOf(c)));
      Shorter(p.torn.value, Encode(MetaOf(c)));
      CutIsRejected(MetaOf(c), p.torn.value);
    }
  }

  /** However far the store gets, what loads is the certificate if it has finished and nothing if it
      has not. */
  ghost predicate Atomic(d: Dir, c: Certificate) {
    forall p :: Possible(Writes(c), p) ==>
      Load(PartlyWritten(d, Writes(c), p)) == if Finished(Writes(c), p) then Some(c) else None
  }

  predicate NoMetaToRead(d: Dir) {
    META !in d || Decode(d[META]).None?
  }

  predicate NoForeignCa(d: Dir, c: Certificate) {
    |c.caCertPEM| > 0 || CA !in d || d[CA] == ""
  }

  lemma UnfinishedLoadsNothing(d: Dir, c: Certificate, p: Progress)
    requires NoMetaToRead(d) && Possible(Writes(c), p) && !Finished(Writes(c), p)
    ensures Load(PartlyWritten(d, Writes(c), p)).None?
  {
    Unfinished(d, c, p);
  }

  /** The store about to begin its last write. */
  function BeforeMeta(c: Certificate): Progress {
    Progress(|Writes(c)| - 1, None)
  }

  lemma LoadsBeforeMeta(d: Dir, c: Certificate)
    requires META in d && Decode(d[META]).Some?
    ensures Possible(Writes(c), BeforeMeta(c)) && !Finished(Writes(c), BeforeMeta(c))
    ensures Load(PartlyWritten(d, Writes(c), BeforeMeta(c))).Some?
  {
    MetaUntouched(d, c, |Writes(c)| - 1);
    assert Writes(c)[..|Writes(c)| - 1] == DataWrites(c);
    DataAre(d, c);
  }

  /** The commit point: a store is atomic, stopping anywhere and in the middle of a write too, exactly
      over a directory whose metadata is absent or cannot be read and that has no CA file for a
      certificate without CA to inherit. */
  lemma CommitPointIff(d: Dir, c: Certificate)
    ensures Atomic(d, c) <==> NoMetaToRead(d) && NoForeignCa(d, c)
  {
    var all := Progress(|Writes(c)|, None);
    assert Possible(Writes(c), all) && Finished(Writes(c), all);
    RoundTripIff(d, c);
    if !NoMetaToRead(d) {
      LoadsBeforeMeta(d, c);
    } else if NoForeignCa(d, c) {
      forall p | Possible(Writes(c), p)
        ensures Load(PartlyWritten(d, Writes(c), p)) == if Finished(Writes(c), p) then Some(c) else None
      {
        if Finished(Writes(c), p) {
          FullStore(d, c, p);
          assert |c.caCertPEM| == 0 ==> c.caCertPEM == "";
        } else {
          UnfinishedLoadsNothing(d, c, p);
        }
      }
    }
  }

  /** In particular over a directory that has none of the files. */
  lemma CommitPoint(d: Dir, c: Certificate, p: Progress)
    requires META !in d && (|c.caCertPEM| > 0 || CA !in d) && Possible(Writes(c), p)
    ensures Load(PartlyWritten(d, Writes(c), p)) == if Finished(Writes(c), p) then Some(c) else None
  {
    CommitPointIff(d, c);
  }

  /** The file after a store that stopped: written, begun, or as it was. */
  predicate Mixed(d: Dir, d': Dir, c: Certificate) {
    var n := DataWritten(d, c);
    forall name :: name in d' ==> (name in d && d'[name] == d[name]) || (name in n && d'[name] <= n[name])
  }

  lemma {:induction false} DataWritesMixed(d: Dir, c: Certificate, k: nat)
    requires k <= |DataWrites(c)|
    ensures Mixed(d, Written(d, DataWrites(c)[..k]), c)
  {
    if k > 0 {
      DataWritesMixed(d, c, k - 1);
      DataWriteIs(d, c, k - 1);
      NextWritten(d, DataWrites(c), k - 1);
      hide DataWritten, DataWrites, Written;
    }
  }

  lemma DataWriteIs(d: Dir, c: Certificate, k: nat)
    requires k < |DataWrites(c)|
    ensures var w := DataWrites(c)[k]; w.name in DataWritten(d, c) && DataWritten(d, c)[w.name] == w.content
  {
  }

  lemma StoppedMixed(d: Dir, c: Certificate, p: Progress)
    requires Possible(Writes(c), p) && p.done < |DataWrites(c)|
    ensures Mixed(d, PartlyWritten(d, Writes(c), p), c)
  {
    assert Writes(c)[..p.done] == DataWrites(c)[..p.done] && Writes(c)[p.done] == DataWrites(c)[p.done];
    DataWritesMixed(d, c, p.done);
  }

  lemma StoppedMeta(d: Dir, c: Certificate, p: Progress)
    requires Possible(Writes(c), p) && p.done < |DataWrites(c)| && META in d
    ensures META in PartlyWritten(d, Writes(c), p) && PartlyWritten(d, Writes(c), p)[META] == d[META]
  {
    MetaUntouched(d, c, p.done);
    assert Writes(c)[p.done] == DataWrites(c)[p.done];
  }

  /** Where the metadata can be read, what loads after any stop before the last write carries the old
      metadata, whatever PEM files it finds: the new ones as far as they got, the old ones otherwise. */
  lemma StoppedLoads(d: Dir, c: Certificate, p: Progress)
    requires Possible(Writes(c), p) && p.done < |DataWrites(c)| && META in d && Decode(d[META]).Some?
    ensures var d' := PartlyWritten(d, Writes(c), p);
      && Mixed(d, d', c)
      && (Load(d').Some? <==> CERT in d' && KEY in d')
      && (Load(d').Some? ==> MetaOf(Load(d').value) == Decode(d[META]).value)
  {
    StoppedMixed(d, c, p);
    StoppedMeta(d, c, p);
    hide Mixed, Decode, PartlyWritten, Writes, DataWrites;
  }

  lemma FirstOnly(d: Dir, c: Certificate)
    ensures Possible(Writes(c), Progress(1, None))
    ensures PartlyWritten(d, Writes(c), Progress(1, None)) == d[CERT := c.certPEM]
  {
    var first := FileWrite(CERT, c.certPEM);
    assert Writes(c)[..1] == [] + [first];
    WrittenSnoc(d, [], first);
    assert Written(d, []) == d;
  }

  /** For instance the new certificate with the old key. */
  lemma MixedDirectory(a: Certificate, c: Certificate)
    ensures var d := PartlyWritten(map[], Writes(a), Progress(|Writes(a)|, None));
      Load(PartlyWritten(d, Writes(c), Progress(1, None))) == Some(a.(certPEM := c.certPEM))
  {
    FullStore(map[], a, Progress(|Writes(a)|, None));
    FirstOnly(PartlyWritten(map[], Writes(a), Progress(|Writes(a)|, None)), c);
  }

  // ---------------------------------------------------------------- runs

  /** One Issue for the host: the clock, the files whose reading failed although they were there, the
      inner issuer's answer, and how far storing it got. Or the host's directory is removed by a Revoke,
      except for the files that could not be. */
  datatype Event =
    | Issue(now: Time, unread: set<string>, answer: Option<Certificate>, progress: Progress)
    | Remove(kept: set<string>)

  function Kept(d: Dir, kept: set<string>): Dir {
    map name | name in d && name in kept :: d[name]
  }

  predicate Hit(d: Dir, now: Time, renewBefore: Time) {
    Load(d).Some? && Load(d).value.notAfter - now > renewBefore
  }

  predicate Sensible(e: Event) {
    e.Issue? && e.answer.Some? ==> Possible(Writes(e.answer.value), e.progress)
  }

  function After(d: Dir, e: Event, renewBefore: Time): Dir
    requires Sensible(e)
  {
    match e
    case Remove(kept) => Kept(d, kept)
    case Issue(now, unread, answer, progress) =>
      if Hit(d - unread, now, renewBefore) || answer.None? then d else PartlyWritten(d, Writes(answer.value), progress)
  }

  datatype Run = Run(dirs: seq<Dir>, events: seq<Event>)

  /** From no directory at all, the clock not going back. */
  predicate IsRun(r: Run, renewBefore: Time) {
    && |r.dirs| == |r.events| + 1
    && r.dirs[0] == map[]
    && (forall k :: 0 <= k < |r.events| ==> Sensible(r.events[k]) && r.dirs[k + 1] == After(r.dirs[k], r.events[k], renewBefore))
    && (forall j, k :: 0 <= j < k < |r.events| && r.events[j].Issue? && r.events[k].Issue? ==> r.events[j].now <= r.events[k].now)
  }

  /** The j-th event called the inner issuer and stored all of its answer. */
  predicate Completed(r: Run, renewBefore: Time, j: nat)
    requires IsRun(r, renewBefore) && j < |r.events|
  {
    var e := r.events[j];
    e.Issue? && !Hit(r.dirs[j] - e.unread, e.now, renewBefore) && e.answer.Some? && Finished(Writes(e.answer.value), e.progress)
  }

  /** Equal but for a CA left over from an earlier certificate. */
  predicate Matches(x: Certificate, c: Certificate) {
    x == c.(caCertPEM := x.caCertPEM) && (|c.caCertPEM| > 0 ==> x.caCertPEM == c.caCertPEM)
  }

  /** What loads was stored completely by the j-th event and not removed since. */
  ghost predicate StoredBy(r: Run, renewBefore: Time, k: nat, j: nat)
    requires IsRun(r, renewBefore) && k < |r.dirs|
  {
    && j < k && Completed(r, renewBefore, j)
    && Load(r.dirs[k]).Some? && Matches(Load(r.dirs[k]).value, r.events[j].answer.value)
    && forall i :: j < i < k && r.events[i].Remove? ==> META in r.events[i].kept
  }

  /** The metadata of a directory, if it can be read. */
  function MetaIn(d: Dir): Option<Meta> {
    if META in d then Decode(d[META]) else None
  }

  /** The metadata was already due for renewal when the i-th event looked at the clock. */
  ghost predicate DueSince(r: Run, renewBefore: Time, k: nat, i: nat)
    requires IsRun(r, renewBefore) && k < |r.dirs|
  {
    && i < k && r.events[i].Issue? && MetaIn(r.dirs[k]).Some?
    && MetaIn(r.dirs[k]).value.notAfter - r.events[i].now <= renewBefore
  }

  /** What is in the directory after k events: no readable metadata, or what a completed call stored,
      or something due for renewal. */
  ghost predicate Settled(r: Run, renewBefore: Time, k: nat)
    requires IsRun(r, renewBefore) && k < |r.dirs|
  {
    MetaIn(r.dirs[k]).Some? ==>
      (exists j: nat :: StoredBy(r, renewBefore, k, j)) || (exists i: nat :: DueSince(r, renewBefore, k, i))
  }

  /** A removal takes the metadata, or leaves both PEM files and the certificate's own CA. */
  predicate Safe(kept: set<string>, c: Certificate) {
    META !in kept || (CERT in kept && KEY in kept && (CA in kept || |c.caCertPEM| == 0))
  }

  /** A call that could not read the valid certificate there is, and began but did not finish storing
      another. */
  predicate Overwrites(r: Run, renewBefore: Time, k: nat)
    requires IsRun(r, renewBefore) && k < |r.events|
  {
    var e := r.events[k];
    && e.Issue? && Hit(r.dirs[k], e.now, renewBefore) && !Hit(r.dirs[k] - e.unread, e.now, renewBefore)
    && e.answer.Some? && !Finished(Writes(e.answer.value), e.progress) && r.dirs[k + 1] != r.dirs[k]
  }

  /** The removal is safe for what is stored; where nothing is to be read or all is due, any is. A call
      overwrites nothing valid, or gets as far as the metadata. */
  ghost predicate Harmless(r: Run, renewBefore: Time, k: nat)
    requires IsRun(r, renewBefore) && k < |r.events|
  {
    && (r.events[k].Remove? && META in r.events[k].kept ==>
          || MetaIn(r.dirs[k]).None?
          || (exists i: nat :: DueSince(r, renewBefore, k, i))
          || (exists j: nat :: StoredBy(r, renewBefore, k, j) && Safe(r.events[k].kept, r.events[j].answer.value)))
    && (Overwrites(r, renewBefore, k) ==> MetaIn(r.dirs[k + 1]).None?)
  }

  lemma LoadMeta(d: Dir)
    requires Load(d).Some?
    ensures MetaIn(d) == Some(MetaOf(Load(d).value))
  {
  }

  /** What is a hit although some files could not be read is one with them. */
  lemma HitReads(d: Dir, unread: set<string>, now: Time, renewBefore: Time)
    requires Hit(d - unread, now, renewBefore)
    ensures Hit(d, now, renewBefore)
    ensures Load(d - unread).value == if CA in unread then Load(d).value.(caCertPEM := "") else Load(d).value
  {
  }

  lemma UnfinishedMeta(d: Dir, c: Certificate, p: Progress)
    requires Possible(Writes(c), p) && !Finished(Writes(c), p)
    ensures MetaIn(PartlyWritten(d, Writes(c), p)).None? || MetaIn(PartlyWritten(d, Writes(c), p)) == MetaIn(d)
  {
    Unfinished(d, c, p);
  }

  lemma StoreSettles(r: Run, renewBefore: Time, k: nat)
    requires IsRun(r, renewBefore) && k < |r.events| && Settled(r, renewBefore, k) && r.events[k].Issue?
    requires !Hit(r.dirs[k] - r.events[k].unread, r.events[k].now, renewBefore) && r.events[k].answer.Some?
    requires Harmless(r, renewBefore, k)
    ensures Settled(r, renewBefore, k + 1)
  {
    var d, e := r.dirs[k], r.events[k];
    var c := e.answer.value;
    assert r.dirs[k + 1] == PartlyWritten(d, Writes(c), e.progress);
    if Finished(Writes(c), e.progress) {
      FullStore(d, c, e.progress);
      assert StoredBy(r, renewBefore, k + 1, k);
    } else {
      UnfinishedMeta(d, c, e.progress);
      if r.dirs[k + 1] == d {
        StaysSettled(r, renewBefore, k);
      } else if MetaIn(r.dirs[k + 1]).Some? {
        DueNow(r, renewBefore, k);
        assert DueSince(r, renewBefore, k + 1, k);
      }
    }
  }

  /** Readable metadata that is no hit is due. */
  lemma DueNow(r: Run, renewBefore: Time, k: nat)
    requires IsRun(r, renewBefore) && k < |r.events| && Settled(r, renewBefore, k) && r.events[k].Issue?
    requires !Hit(r.dirs[k], r.events[k].now, renewBefore) && MetaIn(r.dirs[k]).Some?
    ensures MetaIn(r.dirs[k]).value.notAfter - r.events[k].now <= renewBefore
  {
    if j: nat :| StoredBy(r, renewBefore, k, j) {
      LoadMeta(r.dirs[k]);
    } else {
      var i: nat :| DueSince(r, renewBefore, k, i);
      assert r.events[i].now <= r.events[k].now;
    }
  }

  /** An event that leaves the directory alone. */
  lemma StaysSettled(r: Run, renewBefore: Time, k: nat)
    requires IsRun(r, renewBefore) && k < |r.events| && Settled(r, renewBefore, k) && r.events[k].Issue?
    requires r.dirs[k + 1] == r.dirs[k]
    ensures Settled(r, renewBefore, k + 1)
  {
    if j: nat :| StoredBy(r, renewBefore, k, j) {
      assert StoredBy(r, renewBefore, k + 1, j);
    } else if i: nat :| DueSince(r, renewBefore, k, i) {
      assert DueSince(r, renewBefore, k + 1, i);
    }
  }

  lemma KeptMeta(d: Dir, kept: set<string>)
    ensures MetaIn(Kept(d, kept)) == if META in kept then MetaIn(d) else None
  {
  }

  /** What a safe removal leaves still loads as the same certificate. */
  lemma SafeLoads(d: Dir, kept: set<string>, c: Certificate)
    requires Load(d).Some? && Matches(Load(d).value, c) && META in kept && Safe(kept, c)
    ensures Load(Kept(d, kept)).Some? && Matches(Load(Kept(d, kept)).value, c)
  {
  }

  lemma RemovalSettles(r: Run, renewBefore: Time, k: nat)
    requires IsRun(r, renewBefore) && k < |r.events| && Settled(r, renewBefore, k)
    requires r.events[k].Remove? && Harmless(r, renewBefore, k)
    ensures Settled(r, renewBefore, k + 1)
  {
    var kept := r.events[k].kept;
    KeptMeta(r.dirs[k], kept);
    if MetaIn(r.dirs[k + 1]).Some? {
      if i: nat :| DueSince(r, renewBefore, k, i) {
        assert DueSince(r, renewBefore, k + 1, i);
      } else {
        var j: nat :| StoredBy(r, renewBefore, k, j) && Safe(kept, r.events[j].answer.value);
        SafeLoads(r.dirs[k], kept, r.events[j].answer.value);
        assert StoredBy(r, renewBefore, k + 1, j);
      }
    }
  }

  lemma NextSettled(r: Run, renewBefore: Time, k: nat)
    requires IsRun(r, renewBefore) && k < |r.events| && Settled(r, renewBefore, k) && Harmless(r, renewBefore, k)
    ensures Settled(r, renewBefore, k + 1)
  {
    var e := r.events[k];
    if e.Remove? {
      RemovalSettles(r, renewBefore, k);
    } else if !Hit(r.dirs[k] - e.unread, e.now, renewBefore) && e.answer.Some? {
      StoreSettles(r, renewBefore, k);
    } else {
      StaysSettled(r, renewBefore, k);
    }
  }

  lemma {:induction false} AlwaysSettled(r: Run, renewBefore: Time, k: nat)
    requires IsRun(r, renewBefore) && k < |r.dirs| && forall i: nat :: i < k ==> Harmless(r, renewBefore, i)
    ensures Settled(r, renewBefore, k)
  {
    if k > 0 {
      AlwaysSettled(r, renewBefore, k - 1);
      NextSettled(r, renewBefore, k - 1);
    }
  }

  /** Renewals overwrite old directories, where a store may stop anywhere and leave a mixture; still
      a cache hit only ever returns what one earlier call issued and stored completely, not removed
      since, but for a CA left over, or not read: the mixture carries the old metadata, which was due for
      renewal. */
  lemma HitIsCompleteStore(r: Run, renewBefore: Time, k: nat) returns (j: nat)
    requires IsRun(r, renewBefore) && k < |r.events| && r.events[k].Issue?
    requires Hit(r.dirs[k] - r.events[k].unread, r.events[k].now, renewBefore)
    requires forall i: nat :: i < k ==> Harmless(r, renewBefore, i)
    ensures StoredBy(r, renewBefore, k, j)
    ensures r.events[j].answer.value.notAfter - r.events[k].now > renewBefore
    ensures CA !in r.events[k].unread ==> Matches(Load(r.dirs[k] - r.events[k].unread).value, r.events[j].answer.value)
    ensures Load(r.dirs[k] - r.events[k].unread).value.(caCertPEM := "") == r.events[j].answer.value.(caCertPEM := "")
  {
    HitReads(r.dirs[k], r.events[k].unread, r.events[k].now, renewBefore);
    AlwaysSettled(r, renewBefore, k);
    LoadMeta(r.dirs[k]);
    forall i: nat | i < k && r.events[i].Issue? ensures !DueSince(r, renewBefore, k, i) {
      assert r.events[i].now <= r.events[k].now;
    }
    j :| StoredBy(r, renewBefore, k, j);
  }

  // ---------------------------------------------------------------- removals that stop part-way

  /** However far storing whichever next certificate gets without finishing, a hit is still the one
      stored before the removal. */
  ghost predicate HitsStayGood(d: Dir, kept: set<string>, c0: Certificate, now: Time, renewBefore: Time) {
    forall c, p :: Possible(Writes(c), p) && !Finished(Writes(c), p) ==>
      var d' := After(Kept(d, kept), Issue(now, {}, Some(c), p), renewBefore);
      Hit(d', now, renewBefore) ==> Matches(Load(d').value, c0)
  }

  /** A certificate none of whose PEM blocks has been seen. */
  function Unlike(c: Certificate, seen: nat): Certificate {
    c.(certPEM := Padding(seen), keyPEM := Padding(seen), caCertPEM := "")
  }

  function Padding(n: nat): (s: string)
    ensures |s| == n + 1
  {
    seq(n + 1, i => 'x')
  }

  lemma BothWritten(d: Dir, c: Certificate)
    ensures Possible(Writes(c), Progress(2, None)) && !Finished(Writes(c), Progress(2, None))
    ensures PartlyWritten(d, Writes(c), Progress(2, None)) == d[CERT := c.certPEM][KEY := c.keyPEM]
  {
    var a, b := FileWrite(CERT, c.certPEM), FileWrite(KEY, c.keyPEM);
    assert Writes(c)[..2] == [a, b];
    TwoWrites(d, a, b);
  }

  /** A removal that takes a PEM file and leaves the metadata: then both PEM files of another
      certificate go under the old metadata. */
  lemma PemLost(d: Dir, kept: set<string>, c: Certificate, now: Time, renewBefore: Time)
    requires Load(d).Some? && Load(d).value.notAfter - now > renewBefore && META in kept && !(CERT in kept && KEY in kept)
    ensures var e := Issue(now, {}, Some(c), Progress(2, None));
      && Sensible(e) && Load(Kept(d, kept)).None?
      && Hit(After(Kept(d, kept), e, renewBefore), now, renewBefore)
      && Load(After(Kept(d, kept), e, renewBefore)).value.certPEM == c.certPEM
  {
    BothWritten(Kept(d, kept), c);
    KeptMeta(d, kept);
    var d' := Kept(d, kept)[CERT := c.certPEM][KEY := c.keyPEM];
    assert META in d' && d'[META] == d[META];
  }

  /** A removal that takes only the certificate's own CA: the certificate is handed out without it. */
  lemma CaLost(d: Dir, kept: set<string>, now: Time, renewBefore: Time)
    requires Load(d).Some? && Load(d).value.notAfter - now > renewBefore
    requires META in kept && CERT in kept && KEY in kept && CA !in kept
    ensures Hit(Kept(d, kept), now, renewBefore) && Load(Kept(d, kept)).value == Load(d).value.(caCertPEM := "")
  {
  }

  lemma SafeStaysGood(d: Dir, kept: set<string>, c0: Certificate, now: Time, renewBefore: Time, c: Certificate,
      p: Progress)
    requires Load(d).Some? && Matches(Load(d).value, c0) && c0.notAfter - now > renewBefore && Safe(kept, c0)
    requires Possible(Writes(c), p) && !Finished(Writes(c), p)
    ensures var d' := After(Kept(d, kept), Issue(now, {}, Some(c), p), renewBefore);
      Hit(d', now, renewBefore) ==> Matches(Load(d').value, c0)
  {
    KeptMeta(d, kept);
    if META in kept {
      SafeLoads(d, kept, c0);
    } else {
      UnfinishedLoadsNothing(Kept(d, kept), c, p);
    }
  }

  /** Over a directory with a valid certificate, a removal that stops part-way is harmless exactly if it
      has taken the metadata, or left both PEM files and the certificate's own CA. */
  lemma PartialRemovalIff(d: Dir, kept: set<string>, c0: Certificate, now: Time, renewBefore: Time)
    requires Load(d).Some? && Matches(Load(d).value, c0) && c0.notAfter - now > renewBefore
    ensures HitsStayGood(d, kept, c0, now, renewBefore) <==> Safe(kept, c0)
  {
    if Safe(kept, c0) {
      forall c, p | Possible(Writes(c), p) && !Finished(Writes(c), p)
        ensures var d' := After(Kept(d, kept), Issue(now, {}, Some(c), p), renewBefore);
          Hit(d', now, renewBefore) ==> Matches(Load(d').value, c0)
      {
        SafeStaysGood(d, kept, c0, now, renewBefore, c, p);
      }
    } else {
      var c := Unlike(c0, |c0.certPEM|);
      BothWritten(Kept(d, kept), c);
      if CERT in kept && KEY in kept {
        CaLost(d, kept, now, renewBefore);
      } else {
        PemLost(d, kept, c, now, renewBefore);
      }
    }
  }

  // ---------------------------------------------------------------- which runs they spoil

  /** The second run goes on from the first with calls of Issue that read what is there. */
  predicate GoesOn(r: Run, s: Run) {
    && r.events <= s.events && r.dirs <= s.dirs
    && forall i :: |r.events| <= i < |s.events| ==> s.events[i].Issue? && s.events[i].unread == {}
  }

  /** However the run goes on, each hit is what an earlier call stored completely. */
  ghost predicate Trusted(r: Run, renewBefore: Time) {
    forall s, k: nat :: IsRun(s, renewBefore) && GoesOn(r, s) && |r.events| <= k < |s.events| && Hit(s.dirs[k], s.events[k].now, renewBefore) ==>
      exists j: nat :: StoredBy(s, renewBefore, k, j)
  }

  lemma SamePast(r: Run, s: Run, renewBefore: Time, k: nat)
    requires IsRun(r, renewBefore) && IsRun(s, renewBefore) && GoesOn(r, s) && k < |r.events|
    ensures Harmless(r, renewBefore, k) <==> Harmless(s, renewBefore, k)
    ensures forall j: nat :: StoredBy(r, renewBefore, k, j) <==> StoredBy(s, renewBefore, k, j)
  {
    assert r.dirs[k] == s.dirs[k] && forall i :: 0 <= i <= k ==> r.events[i] == s.events[i] && r.dirs[i] == s.dirs[i];
    assert forall j: nat :: StoredBy(r, renewBefore, k, j) <==> StoredBy(s, renewBefore, k, j);
    assert forall i: nat :: DueSince(r, renewBefore, k, i) <==> DueSince(s, renewBefore, k, i);
  }

  lemma ReadingIsHarmless(r: Run, renewBefore: Time, k: nat)
    requires IsRun(r, renewBefore) && k < |r.events| && r.events[k].Issue? && r.events[k].unread == {}
    ensures Harmless(r, renewBefore, k)
  {
    assert r.dirs[k] - {} == r.dirs[k];
  }

  lemma HarmlessTrusted(r: Run, renewBefore: Time)
    requires IsRun(r, renewBefore) && forall i: nat :: i < |r.events| ==> Harmless(r, renewBefore, i)
    ensures Trusted(r, renewBefore)
  {
    forall s, k: nat | IsRun(s, renewBefore) && GoesOn(r, s) && |r.events| <= k < |s.events| && Hit(s.dirs[k], s.events[k].now, renewBefore)
      ensures exists j: nat :: StoredBy(s, renewBefore, k, j)
    {
      forall i: nat | i < k ensures Harmless(s, renewBefore, i) {
        if i < |r.events| {
          SamePast(r, s, renewBefore, i);
        } else {
          ReadingIsHarmless(s, renewBefore, i);
        }
      }
      var j := HitIsCompleteStore(s, renewBefore, k);
    }
  }

  /** The latest time the run has looked at. */
  lemma {:induction false} LatestIssue(r: Run, renewBefore: Time, n: nat, j: nat) returns (i: nat)
    requires IsRun(r, renewBefore) && j < n <= |r.events| && r.events[j].Issue?
    ensures i < n && r.events[i].Issue? && forall k :: 0 <= k < n && r.events[k].Issue? ==> r.events[k].now <= r.events[i].now
  {
    i := n - 1;
    if !r.events[i].Issue? {
      i := LatestIssue(r, renewBefore, n - 1, j);
    }
  }

  /** Longer than every certificate issued in the run. */
  function Longest(events: seq<Event>): (n: nat)
    ensures forall i :: 0 <= i < |events| && events[i].Issue? && events[i].answer.Some? ==> |events[i].answer.value.certPEM| <= n
  {
    if events == [] then 0
    else
      var init, last := Longest(events[..|events| - 1]), events[|events| - 1];
      if last.Issue? && last.answer.Some? && |last.answer.value.certPEM| > init then |last.answer.value.certPEM| else init
  }

  lemma Appends(r: Run, renewBefore: Time, e: Event) returns (s: Run)
    requires IsRun(r, renewBefore) && e.Issue? && e.unread == {} && Sensible(e)
    requires forall i :: 0 <= i < |r.events| && r.events[i].Issue? ==> r.events[i].now <= e.now
    ensures IsRun(s, renewBefore) && GoesOn(r, s) && s.events == r.events + [e]
    ensures s.dirs == r.dirs + [After(r.dirs[|r.events|], e, renewBefore)]
  {
    s := Run(r.dirs + [After(r.dirs[|r.events|], e, renewBefore)], r.events + [e]);
    forall k | 0 <= k < |s.events| ensures Sensible(s.events[k]) && s.dirs[k + 1] == After(s.dirs[k], s.events[k], renewBefore) {
      if k < |r.events| {
        assert s.events[k] == r.events[k] && s.dirs[k] == r.dirs[k] && s.dirs[k + 1] == r.dirs[k + 1];
      }
    }
  }

  /** What loads is none of the run's certificates. */
  lemma Stranger(s: Run, renewBefore: Time, k: nat)
    requires IsRun(s, renewBefore) && k < |s.dirs| && Load(s.dirs[k]).Some?
    requires forall j: nat :: j < k && Completed(s, renewBefore, j) ==> !Matches(Load(s.dirs[k]).value, s.events[j].answer.value)
    ensures forall j: nat :: !StoredBy(s, renewBefore, k, j)
  {
  }

  /** A call that stops part-way and leaves a hit with a PEM file of its own spoils the run. */
  lemma StrangerSpoils(r: Run, renewBefore: Time, e: Event)
    requires IsRun(r, renewBefore) && e.Issue? && e.unread == {} && e.answer.Some? && Sensible(e) && !Finished(Writes(e.answer.value), e.progress)
    requires forall i :: 0 <= i < |r.events| && r.events[i].Issue? ==> r.events[i].now <= e.now
    requires Hit(After(r.dirs[|r.events|], e, renewBefore), e.now, renewBefore)
    requires |Load(After(r.dirs[|r.events|], e, renewBefore)).value.certPEM| > Longest(r.events)
    ensures !Trusted(r, renewBefore)
  {
    hide Load, Decode, PartlyWritten, Writes, Finished, After;
    var n := |r.events|;
    var s1 := Appends(r, renewBefore, e);
    var s := Appends(s1, renewBefore, Issue(e.now, {}, None, Progress(0, None)));
    assert s.dirs[n + 1] == s1.dirs[n + 1] == After(r.dirs[n], e, renewBefore) && s.events[n] == e;
    forall j: nat | j < n + 1 && Completed(s, renewBefore, j) ensures !Matches(Load(s.dirs[n + 1]).value, s.events[j].answer.value) {
      assert j < n ==> s.events[j] == r.events[j];
    }
    Stranger(s, renewBefore, n + 1);
    assert GoesOn(r, s);
  }

  /** A removal that takes a PEM file from under valid metadata spoils the run. */
  lemma PemLostSpoils(r: Run, renewBefore: Time, now: Time)
    requires IsRun(r, renewBefore) && r.events != []
    requires var k := |r.events| - 1;
      && r.events[k].Remove? && META in r.events[k].kept && !(CERT in r.events[k].kept && KEY in r.events[k].kept)
      && Load(r.dirs[k]).Some? && Load(r.dirs[k]).value.notAfter - now > renewBefore
    requires forall i :: 0 <= i < |r.events| && r.events[i].Issue? ==> r.events[i].now <= now
    ensures !Trusted(r, renewBefore)
  {
    var n := |r.events|;
    var c := Unlike(Load(r.dirs[n - 1]).value, Longest(r.events));
    var e := Issue(now, {}, Some(c), Progress(2, None));
    BothWritten(r.dirs[n], c);
    hide Load, Decode, PartlyWritten, Writes, Finished;
    PemLost(r.dirs[n - 1], r.events[n - 1].kept, c, now, renewBefore);
    StrangerSpoils(r, renewBefore, e);
  }

  /** What loads after a removal took the CA was stored without one. */
  lemma StoredWithoutCa(r: Run, s: Run, renewBefore: Time, j: nat)
    requires IsRun(r, renewBefore) && IsRun(s, renewBefore) && GoesOn(r, s) && r.events != [] && r.events[|r.events| - 1].Remove?
    requires Load(r.dirs[|r.events| - 1]).Some? && Load(r.dirs[|r.events|]).Some?
    requires Load(r.dirs[|r.events|]).value == Load(r.dirs[|r.events| - 1]).value.(caCertPEM := "")
    requires StoredBy(s, renewBefore, |r.events|, j)
    ensures StoredBy(r, renewBefore, |r.events| - 1, j) && |r.events[j].answer.value.caCertPEM| == 0
  {
    var n := |r.events|;
    assert s.dirs[n] == r.dirs[n] && s.events[n - 1] == r.events[n - 1];
    assert j < n - 1 && s.events[j] == r.events[j] && s.dirs[j] == r.dirs[j];
    assert forall i :: j < i < n - 1 ==> s.events[i] == r.events[i];
    hide Load, After, Decode, MetaOf;
  }

  /** So does one that takes the certificate's own CA. */
  lemma CaLostSpoils(r: Run, renewBefore: Time, now: Time)
    requires IsRun(r, renewBefore) && r.events != []
    requires var k := |r.events| - 1;
      && r.events[k].Remove? && META in r.events[k].kept && CERT in r.events[k].kept && KEY in r.events[k].kept && CA !in r.events[k].kept
      && Load(r.dirs[k]).Some? && Load(r.dirs[k]).value.notAfter - now > renewBefore
      && forall j: nat :: StoredBy(r, renewBefore, k, j) ==> |r.events[j].answer.value.caCertPEM| > 0
    requires forall i :: 0 <= i < |r.events| && r.events[i].Issue? ==> r.events[i].now <= now
    ensures !Trusted(r, renewBefore)
  {
    var n := |r.events|;
    var e := Issue(now, {}, None, Progress(0, None));
    CaLost(r.dirs[n - 1], r.events[n - 1].kept, now, renewBefore);
    var s := Appends(r, renewBefore, e);
    assert s.dirs[n] == r.dirs[n] && s.events[n] == e;
    forall j: nat | StoredBy(s, renewBefore, n, j) ensures false {
      StoredWithoutCa(r, s, renewBefore, j);
    }
    assert GoesOn(r, s);
  }

  lemma HarmfulSpoils(r: Run, renewBefore: Time)
    requires IsRun(r, renewBefore) && r.events != [] && r.events[|r.events| - 1].Remove?
    requires Settled(r, renewBefore, |r.events| - 1) && !Harmless(r, renewBefore, |r.events| - 1)
    ensures !Trusted(r, renewBefore)
  {
    hide Trusted, Decode, After;
    var k := |r.events| - 1;
    var j: nat :| StoredBy(r, renewBefore, k, j);
    LoadMeta(r.dirs[k]);
    var i := LatestIssue(r, renewBefore, k, j);
    assert !DueSince(r, renewBefore, k, i);
    if CERT in r.events[k].kept && KEY in r.events[k].kept {
      CaLostSpoils(r, renewBefore, r.events[i].now);
    } else {
      PemLostSpoils(r, renewBefore, r.events[i].now);
    }
  }

  /** The condition on removals is exact: after earlier removals that were harmless, one more leaves a
      run whose hits can be trusted however it goes on, exactly if it is harmless too. */
  lemma HarmlessIff(r: Run, renewBefore: Time)
    requires IsRun(r, renewBefore) && r.events != [] && r.events[|r.events| - 1].Remove?
    requires forall i: nat :: i < |r.events| - 1 ==> Harmless(r, renewBefore, i)
    ensures Trusted(r, renewBefore) <==> Harmless(r, renewBefore, |r.events| - 1)
  {
    var k := |r.events| - 1;
    if Harmless(r, renewBefore, k) {
      HarmlessTrusted(r, renewBefore);
    } else {
      AlwaysSettled(r, renewBefore, k);
      hide Trusted;
      HarmfulSpoils(r, renewBefore);
    }
  }

  // ---------------------------------------------------------------- calls that could not read

  /** Once the first file is written it stays written. */
  lemma {:induction false} FirstStays(d: Dir, c: Certificate, k: nat)
    requires 0 < k <= |DataWrites(c)|
    ensures var d' := Written(d, DataWrites(c)[..k]);
      CERT in d' && d'[CERT] == c.certPEM && (KEY in d ==> KEY in d')
  {
    NextWritten(d, DataWrites(c), k - 1);
    if k == 1 {
      assert Written(d, DataWrites(c)[..0]) == d;
    } else {
      FirstStays(d, c, k - 1);
    }
  }

  /** The store has begun, and not begun with the metadata. */
  predicate Midway(c: Certificate, p: Progress)
    requires Possible(Writes(c), p)
  {
    p != Progress(0, None) && p.done <= |DataWrites(c)| && (p.done == |DataWrites(c)| ==> p.torn.None?)
  }

  /** Then the certificate file is the new one as far as it got, and the metadata are the old. */
  lemma MidwayFiles(d: Dir, c: Certificate, p: Progress)
    requires Possible(Writes(c), p) && Midway(c, p) && META in d && CERT in d && KEY in d
    ensures var d' := PartlyWritten(d, Writes(c), p);
      && META in d' && d'[META] == d[META] && KEY in d' && CERT in d' && d'[CERT] <= c.certPEM
  {
    MetaUntouched(d, c, p.done);
    assert Writes(c)[..p.done] == DataWrites(c)[..p.done];
    if p.done > 0 {
      FirstStays(d, c, p.done);
    } else {
      assert Written(d, DataWrites(c)[..0]) == d;
    }
  }

  lemma AtTheMetadata(d: Dir, c: Certificate, p: Progress)
    requires Possible(Writes(c), p) && !Finished(Writes(c), p) && !Midway(c, p)
    ensures p == Progress(0, None) || (p.done == |DataWrites(c)| && p.torn.Some?)
    ensures p == Progress(0, None) ==> PartlyWritten(d, Writes(c), p) == d
    ensures p != Progress(0, None) ==> MetaIn(PartlyWritten(d, Writes(c), p)).None?
  {
    assert Written(d, Writes(c)[..0]) == d;
    if p != Progress(0, None) {
      assert Writes(c)[p.done] == FileWrite(META, Encode(MetaOf(c)));
      Shorter(p.torn.value, Encode(MetaOf(c)));
      CutIsRejected(MetaOf(c), p.torn.value);
    }
  }

  /** The answer's certificate block does not begin with that of any certificate stored before. */
  predicate Fresh(r: Run, renewBefore: Time)
    requires IsRun(r, renewBefore) && r.events != [] && r.events[|r.events| - 1].Issue?
  {
    var answer := r.events[|r.events| - 1].answer;
    answer.Some? ==>
      forall j :: 0 <= j < |r.events| - 1 && Completed(r, renewBefore, j) ==> !(r.events[j].answer.value.certPEM <= answer.value.certPEM)
  }

  lemma OverwriteSpoils(r: Run, renewBefore: Time)
    requires IsRun(r, renewBefore) && r.events != [] && r.events[|r.events| - 1].Issue? && Fresh(r, renewBefore)
    requires Overwrites(r, renewBefore, |r.events| - 1) && MetaIn(r.dirs[|r.events|]).Some?
    ensures !Trusted(r, renewBefore)
  {
    var n := |r.events|;
    var d, e := r.dirs[n - 1], r.events[n - 1];
    var c := e.answer.value;
    assert r.dirs[n] == PartlyWritten(d, Writes(c), e.progress);
    if !Midway(c, e.progress) {
      AtTheMetadata(d, c, e.progress);
    }
    assert Midway(c, e.progress);
    MidwayFiles(d, c, e.progress);
    StillHit(d, r.dirs[n], e.now, renewBefore);
    hide Load, Decode, PartlyWritten, Writes, Finished, After, Midway, MetaIn;
    LastSpoils(r, renewBefore);
  }

  lemma StillHit(d: Dir, d': Dir, now: Time, renewBefore: Time)
    requires Hit(d, now, renewBefore) && META in d' && d'[META] == d[META] && KEY in d' && CERT in d'
    ensures Hit(d', now, renewBefore) && Load(d').value.certPEM == d'[CERT]
  {
  }

  lemma LastSpoils(r: Run, renewBefore: Time)
    requires IsRun(r, renewBefore) && r.events != [] && r.events[|r.events| - 1].Issue? && Fresh(r, renewBefore)
    requires !Completed(r, renewBefore, |r.events| - 1) && r.events[|r.events| - 1].answer.Some?
    requires Hit(r.dirs[|r.events|], r.events[|r.events| - 1].now, renewBefore)
    requires Load(r.dirs[|r.events|]).value.certPEM <= r.events[|r.events| - 1].answer.value.certPEM
    ensures !Trusted(r, renewBefore)
  {
    hide Load, Decode, PartlyWritten, Writes, Finished, After;
    var n := |r.events|;
    var next := Issue(r.events[n - 1].now, {}, None, Progress(0, None));
    var s := Appends(r, renewBefore, next);
    assert s.dirs[n] == r.dirs[n] && s.events[n] == next;
    forall j: nat | j < n && Completed(s, renewBefore, j) ensures !Matches(Load(s.dirs[n]).value, s.events[j].answer.value) {
      assert s.events[j] == r.events[j] && s.dirs[j] == r.dirs[j];
      assert Completed(r, renewBefore, j);
    }
    Stranger(s, renewBefore, n);
    assert GoesOn(r, s);
  }

  /** The condition on calls is exact as well, where the certificate they obtain is a new one: a call that
      cannot read a valid certificate and begins to store another leaves a run whose hits can be trusted
      exactly if it gets as far as the metadata. */
  lemma CallHarmlessIff(r: Run, renewBefore: Time)
    requires IsRun(r, renewBefore) && r.events != [] && r.events[|r.events| - 1].Issue? && Fresh(r, renewBefore)
    requires forall i: nat :: i < |r.events| - 1 ==> Harmless(r, renewBefore, i)
    ensures Trusted(r, renewBefore) <==> Harmless(r, renewBefore, |r.events| - 1)
  {
    hide Trusted, Fresh;
    if Harmless(r, renewBefore, |r.events| - 1) {
      HarmlessTrusted(r, renewBefore);
    } else {
      OverwriteSpoils(r, renewBefore);
    }
  }

  /** A certificate just stored is handed out exactly if it is valid beyond the margin, with its own CA or
      one left over. */
  lemma StoredIsHit(d: Dir, c: Certificate, p: Progress, now: Time, renewBefore: Time)
    requires Possible(Writes(c), p) && Finished(Writes(c), p)
    ensures Hit(PartlyWritten(d, Writes(c), p), now, renewBefore) <==> c.notAfter - now > renewBefore
    ensures var loaded := Load(PartlyWritten(d, Writes(c), p)); loaded.Some? && Matches(loaded.value, c)
  {
    FullStore(d, c, p);
  }

  // ---------------------------------------------------------------- two mixtures

  /** A removal that takes the certificate file and then fails, followed by a store that stops
      after that same file: one certificate with the key and the metadata of another, and that is a hit. */
  lemma PartialRemovalMixes(a: Certificate, c: Certificate, now: Time, renewBefore: Time) returns (r: Run)
    requires a.notAfter - now > renewBefore
    ensures IsRun(r, renewBefore) && |r.events| == 3 && r.events[1] == Remove({KEY, CA, META})
    ensures !Safe({KEY, CA, META}, a) && !HitsStayGood(r.dirs[1], {KEY, CA, META}, a, now, renewBefore)
    ensures Load(r.dirs[3]) == Some(a.(certPEM := c.certPEM)) && Hit(r.dirs[3], now, renewBefore)
  {
    hide HitsStayGood, Load, Writes, PartlyWritten, Decode, Kept, MetaIn, After;
    var e0, e1, e2 := Issue(now, {}, Some(a), Progress(|Writes(a)|, None)), Remove({KEY, CA, META}), Issue(now, {}, Some(c), Progress(1, None));
    var d1 := FirstStored(a, now, renewBefore);
    PartialRemovalIff(d1, e1.kept, a, now, renewBefore);
    var d3 := MixedSteps(d1, a, c, now, renewBefore);
    r := Run([map[], d1, Kept(d1, e1.kept), d3], [e0, e1, e2]);
    Removed(d1, e1.kept, renewBefore);
    hide *;
    ThreeEvents(r, renewBefore, now, d1, Kept(d1, e1.kept), d3, e0, e1, e2);
  }

  /** And a call that cannot read the metadata of a valid certificate, and stops after the same file. */
  lemma UnreadMixes(a: Certificate, c: Certificate, now: Time, renewBefore: Time) returns (r: Run)
    requires a.notAfter - now > renewBefore && c.certPEM != a.certPEM
    ensures IsRun(r, renewBefore) && |r.events| == 2 && r.events[1] == Issue(now, {META}, Some(c), Progress(1, None))
    ensures Overwrites(r, renewBefore, 1) && !Harmless(r, renewBefore, 1)
    ensures Load(r.dirs[2]) == Some(a.(certPEM := c.certPEM)) && Hit(r.dirs[2], now, renewBefore)
  {
    var e0, e1 := Issue(now, {}, Some(a), Progress(|Writes(a)|, None)), Issue(now, {META}, Some(c), Progress(1, None));
    var d1 := FirstStored(a, now, renewBefore);
    var d2 := PartlyWritten(d1, Writes(c), Progress(1, None));
    FirstOnly(d1, c);
    CertPut(d1, a, c.certPEM);
    NotYetFinished(c);
    hide Writes, PartlyWritten, Decode, Finished, Possible;
    assert After(d1, e1, renewBefore) == d2;
    hide After;
    r := Run([map[], d1, d2], [e0, e1]);
  }

  lemma NotYetFinished(c: Certificate)
    ensures Possible(Writes(c), Progress(1, None)) && !Finished(Writes(c), Progress(1, None))
  {
  }

  lemma CertPut(d: Dir, a: Certificate, certPEM: Bytes)
    requires Load(d) == Some(a)
    ensures Load(d[CERT := certPEM]) == Some(a.(certPEM := certPEM)) && MetaIn(d[CERT := certPEM]).Some?
    ensures Load(d - {META}).None? && d[CERT] == a.certPEM && CERT in d
  {
  }

  lemma Removed(d: Dir, kept: set<string>, renewBefore: Time)
    ensures After(d, Remove(kept), renewBefore) == Kept(d, kept)
  {
  }

  lemma FirstStored(a: Certificate, now: Time, renewBefore: Time) returns (d: Dir)
    ensures Possible(Writes(a), Progress(|Writes(a)|, None))
    ensures d == After(map[], Issue(now, {}, Some(a), Progress(|Writes(a)|, None)), renewBefore) && Load(d) == Some(a)
  {
    d := PartlyWritten(map[], Writes(a), Progress(|Writes(a)|, None));
    FullStore(map[], a, Progress(|Writes(a)|, None));
  }

  lemma MixedSteps(d: Dir, a: Certificate, c: Certificate, now: Time, renewBefore: Time) returns (d': Dir)
    requires Load(d) == Some(a) && a.notAfter - now > renewBefore
    ensures Possible(Writes(c), Progress(1, None))
    ensures d' == After(Kept(d, {KEY, CA, META}), Issue(now, {}, Some(c), Progress(1, None)), renewBefore)
    ensures Load(d') == Some(a.(certPEM := c.certPEM)) && Hit(d', now, renewBefore)
  {
    d' := Kept(d, {KEY, CA, META})[CERT := c.certPEM];
    FirstOnly(Kept(d, {KEY, CA, META}), c);
    CertReplaced(d, a, c.certPEM);
    hide Writes, PartlyWritten, Decode, Kept;
  }

  lemma ThreeEvents(r: Run, renewBefore: Time, now: Time, d1: Dir, d2: Dir, d3: Dir, e0: Event, e1: Event, e2: Event)
    requires r == Run([map[], d1, d2, d3], [e0, e1, e2]) && Sensible(e0) && Sensible(e1) && Sensible(e2)
    requires After(map[], e0, renewBefore) == d1 && After(d1, e1, renewBefore) == d2 && After(d2, e2, renewBefore) == d3
    requires e0.Issue? && e0.now == now && e1.Remove? && e2.Issue? && e2.now == now
    ensures IsRun(r, renewBefore)
  {
    hide After, Sensible;
    assert |r.dirs| == |r.events| + 1;
  }

  lemma CertReplaced(d: Dir, a: Certificate, certPEM: Bytes)
    requires Load(d) == Some(a)
    ensures Load(Kept(d, {KEY, CA, META})).None?
    ensures Load(Kept(d, {KEY, CA, META})[CERT := certPEM]) == Some(a.(certPEM := certPEM))
  {
  }

  // ---------------------------------------------------------------- directories of hosts

  const WILDCARD := "_wildcard_"

  function HostDir(host: string): string {
    if host == [] then [] else (if host[0] == '*' then WILDCARD else [host[0]]) + HostDir(host[1..])
  }

  /** No directory has an asterisk in its name, and one for a host without is named by the host. */
  lemma {:induction false} HostDirPlain(host: string)
    ensures '*' !in HostDir(host)
    ensures '*' !in host ==> HostDir(host) == host
  {
    if host != [] {
      HostDirPlain(host[1..]);
      assert host == [host[0]] + host[1..];
    }
  }

  /** Hosts without an underscore have directories of their own. */
  lemma {:induction false} HostDirInjective(a: string, b: string)
    requires '_' !in a && '_' !in b && HostDir(a) == HostDir(b)
    ensures a == b
  {
    if a != [] && b != [] {
      assert HostDir(a)[0] == if a[0] == '*' then '_' else a[0];
      assert HostDir(b)[0] == if b[0] == '*' then '_' else b[0];
      assert a[0] == b[0];
      var n := if a[0] == '*' then |WILDCARD| else 1;
      assert HostDir(a)[n..] == HostDir(a[1..]) && HostDir(b)[n..] == HostDir(b[1..]);
      HostDirInjective(a[1..], b[1..]);
    }
  }

  // ---------------------------------------------------------------- the issuer

  /** What the disk is asked, and whether that succeeded. */
  datatype Request =
    | ReadOf(dir: string, name: string, ok: bool)
    | MkdirOf(dir: string, ok: bool)
    | WriteOf(dir: string, name: string, ok: bool)
    | RemoveOf(dir: string, ok: bool)

  class FileSystem {
    var dirs: map<string, Dir>
    ghost var requests: seq<Request>

    constructor ()
      ensures dirs == map[] && requests == []
    {
      dirs, requests := map[], [];
    }

    /** The files of a directory; none if it does not exist. */
    function At(dir: string): Dir
      reads this
    {
      if dir in dirs then dirs[dir] else map[]
    }

    /** No content for a file that is not there, or whose reading fails. */
    method ReadFile(dir: string, name: string) returns (content: Option<Bytes>)
      modifies this`requests
      ensures requests == old(requests) + [ReadOf(dir, name, content.Some?)]
      ensures content.Some? ==> name in At(dir) && content.value == At(dir)[name]
    {
      content := None;
      if name in At(dir) {
        if * {
          content := Some(At(dir)[name]);
        }
      }
      requests := requests + [ReadOf(dir, name, content.Some?)];
    }

    method MkdirAll(dir: string) returns (ok: bool)
      modifies this
      ensures At(dir) == old(At(dir)) && forall d :: d != dir ==> At(d) == old(At(d))
      ensures requests == old(requests) + [MkdirOf(dir, ok)]
    {
      if * {
        requests := requests + [MkdirOf(dir, false)];
        return false;
      }
      if dir !in dirs {
        dirs := dirs[dir := map[]];
      }
      requests := requests + [MkdirOf(dir, true)];
      return true;
    }

    /** Truncates and writes; a failure leaves a beginning of the content, all of it, or the old file. */
    method WriteFile(dir: string, w: FileWrite) returns (ok: bool, ghost written: Option<Bytes>)
      modifies this
      ensures written.Some? ==> written.value <= w.content
      ensures At(dir) == if written.Some? then old(At(dir))[w.name := written.value] else old(At(dir))
      ensures forall d :: d != dir ==> At(d) == old(At(d))
      ensures ok ==> written == Some(w.content)
      ensures requests == old(requests) + [WriteOf(dir, w.name, ok)]
    {
      if * {
        requests := requests + [WriteOf(dir, w.name, false)];
        return false, None;
      }
      var n: nat :| n <= |w.content|;
      dirs := dirs[dir := At(dir)[w.name := w.content[..n]]];
      if * {
        requests := requests + [WriteOf(dir, w.name, false)];
        return false, Some(w.content[..n]);
      }
      dirs := dirs[dir := At(dir)[w.name := w.content]];
      requests := requests + [WriteOf(dir, w.name, true)];
      return true, Some(w.content);
    }

    /** Removes file after file, in any order, and then the directory; a failure leaves the rest. */
    method RemoveAll(dir: string) returns (ok: bool, ghost kept: set<string>)
      modifies this
      ensures At(dir) == Kept(old(At(dir)), kept)
      ensures forall d :: d != dir ==> At(d) == old(At(d))
      ensures ok ==> kept == {}
      ensures requests == old(requests) + [RemoveOf(dir, ok)]
    {
      ghost var before := At(dir);
      var left := At(dir);
      kept := before.Keys;
      requests := requests + [RemoveOf(dir, false)];
      while left != map[]
        invariant left == At(dir) == Kept(before, kept)
        invariant forall d :: d != dir ==> At(d) == old(At(d))
        invariant requests == old(requests) + [RemoveOf(dir, false)]
        decreases left.Keys
      {
        if * {
          return false, kept;
        }
        var name :| name in left;
        left := left - {name};
        kept := kept - {name};
        dirs := dirs[dir := left];
      }
      if * {
        return false, kept;
      }
      dirs := dirs - {dir};
      requests := old(requests) + [RemoveOf(dir, true)];
      return true, {};
    }
  }

  /** One after the other, each successful but perhaps the last. */
  predicate UpToFailure(before: seq<Request>, after: seq<Request>, ok: bool) {
    && before <= after
    && (forall i :: |before| <= i < |after| - 1 ==> after[i].ok)
    && (ok ==> |before| < |after| ==> after[|after| - 1].ok)
    && (!ok ==> |before| < |after| && !after[|after| - 1].ok)
  }

  lemma GoOn(before: seq<Request>, after: seq<Request>, next: Request)
    requires UpToFailure(before, after, true)
    ensures UpToFailure(before, after + [next], next.ok)
  {
  }

  /** The read was tried, and failed. */
  predicate Failed(requests: seq<Request>, from: nat, dir: string, name: string) {
    exists i :: from <= i < |requests| && requests[i] == ReadOf(dir, name, false)
  }

  class FileCachingIssuer {
    const fs: FileSystem
    const renewBefore: Time

    constructor (fs: FileSystem, renewBefore: Time)
      ensures this.fs == fs && this.renewBefore == renewBefore
    {
      this.fs := fs;
      this.renewBefore := renewBefore;
    }

    /** A failed store is only logged; the certificate is the caller's all the same. */
    method IssueCert(host: string, now: Time, answer: Option<Certificate>)
      returns (cert: Option<Certificate>, called: bool, ghost e: Event)
      modifies fs
      ensures e.Issue? && e.now == now && e.answer == answer && Sensible(e)
      ensures fs.At(HostDir(host)) == After(old(fs.At(HostDir(host))), e, renewBefore)
      ensures forall d :: d != HostDir(host) ==> fs.At(d) == old(fs.At(d))
      ensures called == !Hit(old(fs.At(HostDir(host))) - e.unread, now, renewBefore)
      ensures cert == if called then answer else Load(old(fs.At(HostDir(host))) - e.unread)
      ensures old(fs.requests) <= fs.requests
      ensures forall name :: name in e.unread ==> Failed(fs.requests, |old(fs.requests)|, HostDir(host), name)
      ensures called && answer.Some? && !Finished(Writes(answer.value), e.progress) ==>
        |fs.requests| > |old(fs.requests)| && !fs.requests[|fs.requests| - 1].ok
    {
      var dir := HostDir(host);
      ghost var unread;
      var cached;
      cached, unread := LoadFrom(dir);
      e := Issue(now, unread, answer, Progress(0, None));
      if cached.Some? && cached.value.notAfter - now > renewBefore {
        return cached, false, e;
      }
      if answer.None? {
        return None, true, e;
      }
      var stored;
      ghost var p;
      ghost var read := fs.requests;
      stored, p := StoreTo(dir, answer.value);
      e := e.(progress := p);
      hide *;
      forall name | name in unread ensures Failed(fs.requests, |old(fs.requests)|, dir, name) {
        StillFailed(read, fs.requests, |old(fs.requests)|, dir, name);
      }
      return answer, true, e;
    }

    method LoadFrom(dir: string) returns (cert: Option<Certificate>, ghost unread: set<string>)
      modifies fs`requests
      ensures cert == Load(fs.At(dir) - unread)
      ensures old(fs.requests) <= fs.requests
      ensures forall name :: name in unread ==> Failed(fs.requests, |old(fs.requests)|, dir, name)
    {
      unread := {};
      var metaBytes := fs.ReadFile(dir, META);
      if metaBytes.None? {
        assert fs.requests[|old(fs.requests)|] == ReadOf(dir, META, false);
        unread := {META};
        return None, unread;
      }
      var meta := Decode(metaBytes.value);
      if meta.None? {
        return None, unread;
      }
      var certPEM := fs.ReadFile(dir, CERT);
      if certPEM.None? {
        assert fs.requests[|old(fs.requests)| + 1] == ReadOf(dir, CERT, false);
        unread := {CERT};
        return None, unread;
      }
      var keyPEM := fs.ReadFile(dir, KEY);
      if keyPEM.None? {
        assert fs.requests[|old(fs.requests)| + 2] == ReadOf(dir, KEY, false);
        unread := {KEY};
        return None, unread;
      }
      var caPEM := fs.ReadFile(dir, CA);
      assert caPEM.None? ==> fs.requests[|old(fs.requests)| + 3] == ReadOf(dir, CA, false);
      unread := if caPEM.None? then {CA} else {};
      var ca := if caPEM.Some? then caPEM.value else "";
      cert := Some(Certificate(meta.value.host, certPEM.value, keyPEM.value, ca, meta.value.notBefore, meta.value.notAfter, meta.value.issuer));
    }

    /** Stops at the first write that fails. */
    method StoreTo(dir: string, cert: Certificate) returns (ok: bool, ghost p: Progress)
      modifies fs
      ensures Possible(Writes(cert), p)
      ensures fs.At(dir) == PartlyWritten(old(fs.At(dir)), Writes(cert), p)
      ensures forall d :: d != dir ==> fs.At(d) == old(fs.At(d))
      ensures ok ==> p == Progress(|Writes(cert)|, None)
      ensures UpToFailure(old(fs.requests), fs.requests, ok)
    {
      p := Progress(0, None);
      ghost var d0 := fs.At(dir);
      assert UpToFailure(old(fs.requests), old(fs.requests), true);
      ok := fs.MkdirAll(dir);
      GoOn(old(fs.requests), old(fs.requests), MkdirOf(dir, ok));
      assert Written(d0, Writes(cert)[..0]) == d0;
      if !ok {
        return;
      }
      var writes := [FileWrite(CERT, cert.certPEM), FileWrite(KEY, cert.keyPEM)];
      if |cert.caCertPEM| > 0 {
        writes := writes + [FileWrite(CA, cert.caCertPEM)];
      }
      writes := writes + [FileWrite(META, Encode(MetaOf(cert)))];
      assert writes == Writes(cert);
      hide Writes, DataWrites, Encode, MetaOf, Written, UpToFailure;
      for i := 0 to |writes|
        invariant p == Progress(i, None) && fs.At(dir) == Written(d0, writes[..i])
        invariant forall d :: d != dir ==> fs.At(d) == old(fs.At(d))
        invariant UpToFailure(old(fs.requests), fs.requests, true)
      {
        ghost var written;
        ghost var sent := fs.requests;
        ok, written := fs.WriteFile(dir, writes[i]);
        GoOn(old(fs.requests), sent, WriteOf(dir, writes[i].name, ok));
        if !ok {
          p := Progress(i, written);
          return;
        }
        NextWritten(d0, writes, i);
        p := Progress(i + 1, None);
      }
      return true, p;
    }

    /** A directory that cannot be removed, or not wholly, is only logged. */
    method RevokeCert(cert: Certificate, innerOk: bool) returns (ok: bool, ghost e: Event)
      modifies fs
      ensures e.Remove? && fs.At(HostDir(cert.host)) == After(old(fs.At(HostDir(cert.host))), e, renewBefore)
      ensures forall d :: d != HostDir(cert.host) ==> fs.At(d) == old(fs.At(d))
      ensures ok == innerOk
      ensures fs.requests == old(fs.requests) + [RemoveOf(HostDir(cert.host), true)] ||
        fs.requests == old(fs.requests) + [RemoveOf(HostDir(cert.host), false)]
      ensures fs.requests[|old(fs.requests)|].ok ==> fs.At(HostDir(cert.host)) == map[]
    {
      var gone;
      ghost var kept;
      gone, kept := fs.RemoveAll(HostDir(cert.host));
      return innerOk, Remove(kept);
    }
  }

  lemma StillFailed(before: seq<Request>, after: seq<Request>, from: nat, dir: string, name: string)
    requires before <= after && Failed(before, from, dir, name)
    ensures Failed(after, from, dir, name)
  {
    var i :| from <= i < |before| && before[i] == ReadOf(dir, name, false);
    assert after[i] == before[i];
  }
}
