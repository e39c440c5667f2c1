/** Bot configuration: the settings store with its type-directed update, the
    admin-id list read from the environment, and the admin check. Reading
    the environment is replaced by the string it yields. */
module Configuration {
  import opened Common

  /** A setting value; the type of a stored value decides how an update is
      parsed. (No float setting exists: defaults are bool or int and new
      keys are stored as strings.) */
  datatype Setting = BoolSetting(b: bool) | IntSetting(i: int) | StrSetting(s: string)

  const DefaultSettings: map<string, Setting> := map[
    "max_retries" := IntSetting(3),
    "update_interval" := IntSetting(300),
    "maintenance_mode" := BoolSetting(false),
    "fade_rating_threshold" := IntSetting(3)
  ]

  /** The words that make a bool setting true, after lowercasing. */
  const TrueWords: set<string> := {"true", "yes", "1", "on"}

  // ---------------------------------------------------------------------
  // int(): surrounding whitespace, an optional sign, then decimal digits
  // ---------------------------------------------------------------------

  /** Decimal integer syntax: digits, optionally after one sign. */
  predicate IntSyntax(t: string) {
    AllDigits(t) || (|t| >= 2 && (t[0] == '-' || t[0] == '+') && AllDigits(t[1..]))
  }

  /** `int(s)` for decimal strings; None where Python raises ValueError.
      (Underscores between digits are not accepted here.) */
  function ParseInt(s: string): (r: Option<int>)
    ensures r.Some? <==> IntSyntax(Strip(s))
    ensures AllDigits(Strip(s)) ==> r == Some(DigitsValue(Strip(s)))
    ensures IntSyntax(Strip(s)) && Strip(s)[0] == '-' ==> r == Some(-(DigitsValue(Strip(s)[1..]) as int))
    ensures IntSyntax(Strip(s)) && Strip(s)[0] == '+' ==> r == Some(DigitsValue(Strip(s)[1..]))
    ensures r.Some? ==> Strip(s) != []
  {
    var t := Strip(s);
    if !IntSyntax(t) then None
    else if AllDigits(t) then Some(DigitsValue(t))
    else if t[0] == '-' then Some(-(DigitsValue(t[1..]) as int))
    else Some(DigitsValue(t[1..]))
  }

  /** `str(i)` */
  function IntToString(i: int): (r: string)
    ensures r != [] && r[0] != ','
    ensures forall k :: 0 <= k < |r| ==> r[k] != ',' && !IsSpace(r[k])
  {
    if i < 0 then "-" + NatToString(-i) else NatToString(i)
  }

  lemma StripOfIntToString(i: int)
    ensures Strip(IntToString(i)) == IntToString(i)
  {
    var s := IntToString(i);
    assert !IsSpace(s[0]);
    assert StripLeft(s) == s;
    assert !IsSpace(s[|s| - 1]);
  }

  /** Parsing a rendered integer gives the integer back. */
  lemma ParseIntToString(i: int)
    ensures ParseInt(IntToString(i)) == Some(i)
  {
    StripOfIntToString(i);
    var s := IntToString(i);
    if i < 0 {
      assert s[1..] == NatToString(-i);
      DigitsValueOfNatToString(-i);
    } else {
      DigitsValueOfNatToString(i);
    }
  }

  // ---------------------------------------------------------------------
  // ADMIN_IDS
  // ---------------------------------------------------------------------

  /** `s.split(",")`: always at least one piece, none containing ','. */
  function Split(s: string): (r: seq<string>)
    ensures |r| >= 1
    ensures forall p :: p in r ==> ',' !in p
  {
    if s == [] then [[]]
    else
      var rest := Split(s[1..]);
      if s[0] == ',' then [[]] + rest
      else
        assert forall p :: p in rest[1..] ==> p in rest;
        [[s[0]] + rest[0]] + rest[1..]
  }

  /** `",".join(pieces)` */
  function Join(pieces: seq<string>): string
    requires |pieces| >= 1
  {
    if |pieces| == 1 then pieces[0] else pieces[0] + "," + Join(pieces[1..])
  }

  /** Splitting undoes joining pieces that hold no ','. */
  lemma {:induction false} SplitJoin(pieces: seq<string>)
    requires |pieces| >= 1
    requires forall p :: p in pieces ==> ',' !in p
    ensures Split(Join(pieces)) == pieces
  {
    if |pieces| == 1 {
      SplitPiece(pieces[0], "");
      assert pieces[0] + "" == pieces[0];
      assert Split("") == [[]];
      assert pieces == [pieces[0]];
    } else {
      assert forall p :: p in pieces[1..] ==> p in pieces;
      SplitJoin(pieces[1..]);
      var j := Join(pieces[1..]);
      var t := "," + j;
      assert t[0] == ',' && t[1..] == j;
      assert Split(t) == [[]] + Split(j);
      assert Join(pieces) == pieces[0] + t;
      SplitPiece(pieces[0], t);
      assert pieces[0] + Split(t)[0] == pieces[0];
      assert Split(t)[1..] == pieces[1..];
      assert pieces == [pieces[0]] + pieces[1..];
    }
  }

  /** A piece without ',' in front of `rest` (empty or starting with ',') is
      the first piece of the split, glued to the first piece of `rest`'s. */
  lemma {:induction false} SplitPiece(p: string, rest: string)
    requires ',' !in p
    requires rest == [] || rest[0] == ','
    ensures Split(p + rest) == [p + Split(rest)[0]] + Split(rest)[1..]
  {
    if p != [] {
      SplitPiece(p[1..], rest);
      assert (p + rest)[1..] == p[1..] + rest;
      assert (p + rest)[0] == p[0];
      assert [p[0]] + (p[1..] + Split(rest)[0]) == p + Split(rest)[0];
    } else {
      assert p + rest == rest;
      var parts := Split(rest);
      if rest != [] {
        assert parts == [[]] + Split(rest[1..]);
      }
      assert parts[0] == [] && p + parts[0] == parts[0];
      assert parts == [parts[0]] + parts[1..];
    }
  }

  /** The stripped pieces that are not blank, in order. */
  function NonBlank(pieces: seq<string>): (r: seq<string>)
    ensures |r| <= |pieces|
    ensures forall k :: 0 <= k < |r| ==> r[k] != []
  {
    if pieces == [] then []
    else
      var t := Strip(pieces[0]);
      if t == [] then NonBlank(pieces[1..]) else [t] + NonBlank(pieces[1..])
  }

  /** The outcome of `int(t)` for every text, in order. */
  function ParsedEach(texts: seq<string>): (r: seq<Option<int>>)
    ensures |r| == |texts|
    ensures forall k :: 0 <= k < |texts| ==> r[k] == ParseInt(texts[k])
  {
    if texts == [] then [] else [ParseInt(texts[0])] + ParsedEach(texts[1..])
  }

  /** `int(t)` of every text in order; None as soon as one is not an
      integer. */
  function ParseAll(texts: seq<string>): (r: Option<seq<int>>)
    ensures r.None? <==> exists k :: 0 <= k < |texts| && ParseInt(texts[k]).None?
    ensures r.Some? ==> |r.value| == |texts|
    ensures r.Some? ==> forall k :: 0 <= k < |texts| ==> Some(r.value[k]) == ParseInt(texts[k])
  {
    AllPresent(ParsedEach(texts))
  }

  /** The ids of the pieces, as the list comprehension computes them: blank
      pieces are skipped, every other piece is stripped and converted in
      order, and the whole parse fails (None) as soon as one of them is not
      an integer. */
  function ParsePieces(pieces: seq<string>): (r: Option<seq<int>>)
    ensures r.None? <==> exists k :: 0 <= k < |NonBlank(pieces)| && ParseInt(NonBlank(pieces)[k]).None?
    ensures r.Some? ==> |r.value| == |NonBlank(pieces)|
    ensures r.Some? ==>
              forall k :: 0 <= k < |r.value| ==> Some(r.value[k]) == ParseInt(NonBlank(pieces)[k])
  {
    ParseAll(NonBlank(pieces))
  }

  /** `ADMIN_IDS` from the environment string: empty for an empty string or
      when any non-blank piece is not an integer; otherwise the integers of
      the stripped non-blank pieces of the comma split, in order. */
  function ParseAdminIds(env: string): (r: seq<int>)
    ensures env == [] ==> r == []
    ensures (exists k :: 0 <= k < |NonBlank(Split(env))| && ParseInt(NonBlank(Split(env))[k]).None?) ==>
              r == []
    ensures env != [] && (forall k :: 0 <= k < |NonBlank(Split(env))| ==> ParseInt(NonBlank(Split(env))[k]).Some?) ==>
              |r| == |NonBlank(Split(env))| &&
              forall k :: 0 <= k < |r| ==> Some(r[k]) == ParseInt(NonBlank(Split(env))[k])
  {
    if env == [] then []
    else
      match ParsePieces(Split(env))
      case None => []
      case Some(ids) => ids
  }

  function Render(ids: seq<int>): (r: seq<string>)
    ensures |r| == |ids|
    ensures forall k :: 0 <= k < |ids| ==> r[k] == IntToString(ids[k])
  {
    if ids == [] then [] else [IntToString(ids[0])] + Render(ids[1..])
  }

  /** Rendered ids are already stripped and never blank. */
  lemma {:induction false} NonBlankRendered(ids: seq<int>)
    ensures NonBlank(Render(ids)) == Render(ids)
  {
    if ids != [] {
      NonBlankRendered(ids[1..]);
      StripOfIntToString(ids[0]);
      assert Render(ids)[1..] == Render(ids[1..]);
    }
  }

  lemma ParseRendered(ids: seq<int>)
    ensures ParsePieces(Render(ids)) == Some(ids)
  {
    NonBlankRendered(ids);
    var parsed := ParsedEach(Render(ids));
    forall k | 0 <= k < |ids|
      ensures parsed[k] == Some(ids[k])
    {
      RenderedPieceParses(ids, k);
    }
    AllPresentOfValues(parsed, ids);
  }

  lemma RenderedPieceParses(ids: seq<int>, k: nat)
    requires k < |ids|
    ensures ParseInt(Render(ids)[k]) == Some(ids[k])
  {
    ParseIntToString(ids[k]);
  }

  /** A comma-separated list of rendered ids reads back as those ids. */
  lemma AdminIdsRoundTrip(ids: seq<int>)
    requires ids != []
    ensures ParseAdminIds(Join(Render(ids))) == ids
  {
    var pieces := Render(ids);
    RenderedHasNoCommas(ids);
    SplitJoin(pieces);
    ParseRendered(ids);
    assert Join(pieces) != [] by {
      assert pieces[0] != [];
      JoinStartsWithFirst(pieces);
    }
    AdminIdsOfParsedPieces(Join(pieces), ids);
  }

  lemma RenderedHasNoCommas(ids: seq<int>)
    ensures forall p :: p in Render(ids) ==> ',' !in p
  {
    var pieces := Render(ids);
    forall p | p in pieces
      ensures ',' !in p
    {
      var k :| 0 <= k < |pieces| && pieces[k] == p;
    }
  }

  lemma AdminIdsOfParsedPieces(env: string, ids: seq<int>)
    requires env != [] && ParsePieces(Split(env)) == Some(ids)
    ensures ParseAdminIds(env) == ids
  {
  }

  lemma {:induction false} JoinStartsWithFirst(pieces: seq<string>)
    requires |pieces| >= 1
    ensures |Join(pieces)| >= |pieces[0]|
  {
  }

  /** `is_admin` (both the method and the module function): membership in
      the parsed admin list. */
  function IsAdmin(adminIds: seq<int>, userId: int): (r: bool)
    ensures r <==> exists k :: 0 <= k < |adminIds| && adminIds[k] == userId
  {
    userId in adminIds
  }

  // ---------------------------------------------------------------------
  // update_setting
  // ---------------------------------------------------------------------

  /** The result of `update_setting`: the new settings and the answer. */
  datatype Update = Update(settings: map<string, Setting>, ok: bool)

  /** `update_setting`: a bool setting becomes whether the lowercased text is
      one of true/yes/1/on (this cannot fail, and a bool setting is never
      parsed as an int); an int setting takes the parsed integer, and a text
      that does not parse fails and changes nothing; a string setting and an
      unknown key take the raw text. Only the named key changes. */
  function UpdateSpec(settings: map<string, Setting>, key: string, value: string): (r: Update)
    ensures !r.ok <==> key in settings && settings[key].IntSetting? && ParseInt(value).None?
    ensures !r.ok ==> r.settings == settings
    ensures r.ok ==> r.settings.Keys == settings.Keys + {key}
    ensures forall k :: k in settings && k != key ==> r.settings[k] == settings[k]
    ensures r.ok && key in settings && settings[key].BoolSetting? ==>
              r.settings[key] == BoolSetting(Lower(value) in TrueWords)
    ensures r.ok && key in settings && settings[key].IntSetting? ==>
              r.settings[key] == IntSetting(ParseInt(value).value)
    ensures r.ok && (key !in settings || settings[key].StrSetting?) ==>
              r.settings[key] == StrSetting(value)
  {
    if key in settings then
      match settings[key]
      case BoolSetting(_) => Update(settings[key := BoolSetting(Lower(value) in TrueWords)], true)
      case IntSetting(_) =>
        (match ParseInt(value)
         case None => Update(settings, false)
         case Some(i) => Update(settings[key := IntSetting(i)], true))
      case StrSetting(_) => Update(settings[key := StrSetting(value)], true)
    else Update(settings[key := StrSetting(value)], true)
  }

  /** An existing setting keeps its type through every update. */
  lemma UpdateKeepsType(settings: map<string, Setting>, key: string, value: string)
    requires key in settings
    ensures var after := UpdateSpec(settings, key, value).settings[key];
            (after.BoolSetting? <==> settings[key].BoolSetting?) &&
            (after.IntSetting? <==> settings[key].IntSetting?) &&
            (after.StrSetting? <==> settings[key].StrSetting?)
  {
  }

  /** Writing back the rendering of an int setting's value is a successful
      update that changes nothing. */
  lemma UpdateWithRenderedInt(settings: map<string, Setting>, key: string)
    requires key in settings && settings[key].IntSetting?
    ensures UpdateSpec(settings, key, IntToString(settings[key].i)) == Update(settings, true)
  {
    ParseIntToString(settings[key].i);
  }

  class Config {
    var settings: map<string, Setting>

    constructor()
      ensures settings == DefaultSettings
    {
      settings := DefaultSettings;
    }

    /** `get_setting`: the stored value, or the given default (None when
        none is given) for an absent key. */
    function GetSetting(key: string, default: Option<Setting>): (r: Option<Setting>)
      reads this
      ensures key in settings ==> r == Some(settings[key])
      ensures key !in settings ==> r == default
    {
      if key in settings then Some(settings[key]) else default
    }

    method UpdateSetting(key: string, value: string) returns (ok: bool)
      modifies this
      ensures Update(settings, ok) == UpdateSpec(old(settings), key, value)
    {
      var converted: Setting;
      if key in settings {
        var original := settings[key];
        if original.BoolSetting? {
          converted := BoolSetting(Lower(value) in TrueWords);
        } else if original.IntSetting? {
          var parsed := ParseInt(value);
          if parsed.None? {
            return false;
          }
          converted := IntSetting(parsed.value);
        } else {
          converted := StrSetting(value);
        }
      } else {
        converted := StrSetting(value);
      }
      settings := settings[key := converted];
      return true;
    }
  }
}
