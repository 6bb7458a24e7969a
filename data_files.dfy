/**
 * The JSON data files of a bot: `warns.json`, `owners.json`, `premiums.json`
 * and `botinfo.json`. The main bot keeps them under `data/`, every tenant
 * under `mirror_data/<id>/`. A directory is a map from file name to parsed
 * content; a file that does not exist has no entry. Default contents are
 * written only for files that are missing.
 */
module DataFiles {
  import opened Wrappers

  datatype BotInfo = BotInfo(botName: string, ownerName: string, thumbnail: Option<string>)

  /** `warns.json`: chat id to user id to number of warnings. */
  type WarnTable = map<int, map<int, nat>>

  datatype FileName = Warns | Owners | Premiums | BotInfoFile

  datatype FileContent = WarnsJson(warns: WarnTable) | IdList(ids: seq<int>) | BotInfoJson(info: BotInfo)

  type DataDir = map<FileName, FileContent>

  /** Every file name has an entry. */
  predicate Complete(d: DataDir) {
    forall f: FileName :: f in d
  }

  lemma CompleteIfAllFour(d: DataDir)
    requires Warns in d && Owners in d && Premiums in d && BotInfoFile in d
    ensures Complete(d)
  {
    forall f: FileName
      ensures f in d
    {
      match f
      case Warns =>
      case Owners =>
      case Premiums =>
      case BotInfoFile =>
    }
  }

  /** bot.js creates the files in this order. */
  const BotFileOrder: seq<FileName> := [Warns, Owners, Premiums, BotInfoFile]

  /** bot.js: `{}` for warns, `[]` for the two lists, and the default bot info. */
  function BotDefaults(): (d: DataDir)
    ensures Complete(d)
  {
    var d := map[Warns := WarnsJson(map[]), Owners := IdList([]), Premiums := IdList([]),
                 BotInfoFile := BotInfoJson(BotInfo("My Telegram Bot", "Bot Owner", None))];
    CompleteIfAllFour(d);
    d
  }

  /** `setupMirrorData` creates the files in this order. */
  const MirrorFileOrder: seq<FileName> := [Owners, Premiums, Warns, BotInfoFile]

  /** A tenant starts with its owner as the only owner and its own bot name. */
  function MirrorDefaults(ownerId: int, botName: string): (d: DataDir)
    ensures Complete(d)
  {
    var d := map[Owners := IdList([ownerId]), Premiums := IdList([]), Warns := WarnsJson(map[]),
                 BotInfoFile := BotInfoJson(BotInfo(botName, "Mirror Owner", None))];
    CompleteIfAllFour(d);
    d
  }

  /** The directory after visiting `order`, writing the default of every
      file that does not exist yet. */
  function FillFiles(d: DataDir, defaults: DataDir, order: seq<FileName>): DataDir
    requires forall f :: f in order ==> f in defaults
  {
    if order == [] then d
    else
      var prev := FillFiles(d, defaults, order[..|order| - 1]);
      var f := order[|order| - 1];
      if f in prev then prev else prev[f := defaults[f]]
  }

  /** A file that existed keeps its content; a missing file named in `order`
      gets its default; any other missing file stays missing. */
  lemma {:induction false} FillFilesSpec(d: DataDir, defaults: DataDir, order: seq<FileName>)
    requires forall f :: f in order ==> f in defaults
    ensures FillFiles(d, defaults, order).Keys == d.Keys + set f | f in order
    ensures forall f :: f in d ==> FillFiles(d, defaults, order)[f] == d[f]
    ensures forall f :: f !in d && f in order ==> FillFiles(d, defaults, order)[f] == defaults[f]
    decreases |order|
  {
    if order != [] {
      var pre := order[..|order| - 1];
      FillFilesSpec(d, defaults, pre);
      assert order == pre + [order[|order| - 1]];
    }
  }

  /** Creating the defaults twice is creating them once. */
  lemma FillFilesIdempotent(d: DataDir, defaults: DataDir, order: seq<FileName>)
    requires forall f :: f in order ==> f in defaults
    ensures FillFiles(FillFiles(d, defaults, order), defaults, order) == FillFiles(d, defaults, order)
  {
    var once := FillFiles(d, defaults, order);
    FillFilesSpec(d, defaults, order);
    FillFilesSpec(once, defaults, order);
  }

  /** The `forEach` over the file names: write each missing file. `written`
      lists the files created, in the order they were created. */
  method CreateMissing(d: DataDir, defaults: DataDir, order: seq<FileName>) returns (r: DataDir, written: seq<FileName>)
    requires forall f :: f in order ==> f in defaults
    requires forall i, j :: 0 <= i < j < |order| ==> order[i] != order[j]
    ensures r == FillFiles(d, defaults, order)
    ensures forall f :: f in written <==> f in order && f !in d
    ensures |written| <= |order|
  {
    r := d;
    written := [];
    var i := 0;
    while i < |order|
      invariant 0 <= i <= |order|
      invariant r == FillFiles(d, defaults, order[..i])
      invariant forall f :: f in written <==> f in order[..i] && f !in d
      invariant |written| <= i
    {
      assert order[..i + 1][..i] == order[..i];
      assert order[..i + 1] == order[..i] + [order[i]];
      FillFilesSpec(d, defaults, order[..i]);
      var f := order[i];
      if f !in r {
        r := r[f := defaults[f]];
        written := written + [f];
      }
      i := i + 1;
    }
    assert order[..i] == order;
  }

  /** The id list stored in `owners.json` or `premiums.json`; a missing file
      reads as the empty list. */
  function IdsOf(d: DataDir, f: FileName): (ids: seq<int>)
    ensures f !in d ==> ids == []
  {
    if f in d && d[f].IdList? then d[f].ids else []
  }

  /** The warn table; a missing `warns.json` reads as `{}`. */
  function WarnsOf(d: DataDir): (w: WarnTable)
    ensures Warns !in d ==> w == map[]
  {
    if Warns in d && d[Warns].WarnsJson? then d[Warns].warns else map[]
  }
}
