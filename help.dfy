/**
 * commands/help.js: the command list grouped into four categories, and the
 * detail of one command. Both views load a fresh command manager from the
 * commands directory; here the loaded commands are parameters.
 */
module Help {
  import opened Wrappers
  import opened OrderedMap
  import opened Strings
  import opened CommandTemplate
  import opened CommandManager

  datatype Category = General | Game | Admin | Owner

  /** The order the categories are printed in. */
  const CategoryOrder: seq<Category> := [General, Game, Admin, Owner]

  /** The category of a command, by its name alone. */
  function CategoryOf(name: string): Category
  {
    if name == "start" || name == "help" || name == "menu" then General
    else if name == "tebak" then Game
    else if Includes(name, "owner") || Includes(name, "prem") then Owner
    else Admin
  }

  /** A listed command: its name and the description shown for it. */
  datatype Entry = Entry(name: string, description: string)

  const NoDescription := "Tidak ada deskripsi"

  /** `description || 'Tidak ada deskripsi'`: the empty string is falsy. */
  function ShownDescription(description: string): (r: string)
    ensures r != ""
    ensures description != "" ==> r == description
  {
    if description == "" then NoDescription else description
  }

  function Displayed(e: Entry): Entry {
    Entry(e.name, ShownDescription(e.description))
  }

  /** The commands of category `c`, in the order they were loaded. */
  function InCategory(cmds: seq<Entry>, c: Category): (r: seq<Entry>)
    ensures |r| <= |cmds|
  {
    if cmds == [] then []
    else
      var last := cmds[|cmds| - 1];
      InCategory(cmds[..|cmds| - 1], c) + (if CategoryOf(last.name) == c then [Displayed(last)] else [])
  }

  /** The sections printed for the categories `cats`: a category with no
      command is left out. */
  function Sections(cmds: seq<Entry>, cats: seq<Category>): seq<(Category, seq<Entry>)>
  {
    if cats == [] then []
    else
      var c := cats[|cats| - 1];
      Sections(cmds, cats[..|cats| - 1]) + (if InCategory(cmds, c) != [] then [(c, InCategory(cmds, c))] else [])
  }

  /** The whole list, in the fixed category order. */
  function Listing(cmds: seq<Entry>): seq<(Category, seq<Entry>)>
  {
    Sections(cmds, CategoryOrder)
  }

  /** Every command lands in the section of its category, and a section
      holds only commands of its category. */
  lemma {:induction false} InCategoryMembers(cmds: seq<Entry>, c: Category)
    ensures forall i :: 0 <= i < |cmds| && CategoryOf(cmds[i].name) == c ==> Displayed(cmds[i]) in InCategory(cmds, c)
    ensures forall e :: e in InCategory(cmds, c) ==> CategoryOf(e.name) == c
  {
    if cmds != [] {
      InCategoryMembers(cmds[..|cmds| - 1], c);
    }
  }

  /** The four groups together have exactly as many entries as there are
      commands: with the membership lemma, each command is listed once. */
  lemma {:induction false} PartitionCount(cmds: seq<Entry>)
    ensures |InCategory(cmds, General)| + |InCategory(cmds, Game)| + |InCategory(cmds, Admin)| + |InCategory(cmds, Owner)| == |cmds|
  {
    if cmds != [] {
      PartitionCount(cmds[..|cmds| - 1]);
    }
  }

  function Rank(c: Category): nat {
    match c
    case General => 0
    case Game => 1
    case Admin => 2
    case Owner => 3
  }

  /** The sections come in the fixed order, none is empty, and a category
      has a section exactly when some command belongs to it. */
  lemma ListingShape(cmds: seq<Entry>)
    ensures var ls := Listing(cmds);
      && (forall i, j :: 0 <= i < j < |ls| ==> Rank(ls[i].0) < Rank(ls[j].0))
      && (forall i :: 0 <= i < |ls| ==> ls[i].1 != [] && ls[i].1 == InCategory(cmds, ls[i].0))
      && (forall c :: (c, InCategory(cmds, c)) in ls <==> InCategory(cmds, c) != [])
  {
    SectionsContent(cmds, CategoryOrder);
    SectionsOrdered(cmds, CategoryOrder);
    SectionsCover(cmds, CategoryOrder);
    forall c: Category
      ensures c in CategoryOrder
    {
      match c
      case General =>
      case Game =>
      case Admin =>
      case Owner =>
    }
  }

  /** Each section is the non-empty group of one of the categories asked for. */
  lemma {:induction false} SectionsContent(cmds: seq<Entry>, cats: seq<Category>)
    ensures forall i :: 0 <= i < |Sections(cmds, cats)| ==>
      && Sections(cmds, cats)[i].1 != []
      && Sections(cmds, cats)[i].1 == InCategory(cmds, Sections(cmds, cats)[i].0)
      && Sections(cmds, cats)[i].0 in cats
  {
    if cats != [] {
      var pre := cats[..|cats| - 1];
      SectionsContent(cmds, pre);
      var lp := Sections(cmds, pre);
      assert forall i :: 0 <= i < |lp| ==> lp[i].0 in cats by {
        forall i | 0 <= i < |lp|
          ensures lp[i].0 in cats
        {
          var k :| 0 <= k < |pre| && pre[k] == lp[i].0;
          assert cats[k] == pre[k];
        }
      }
    }
  }

  /** Categories asked for in increasing rank give sections in increasing rank. */
  lemma {:induction false} SectionsOrdered(cmds: seq<Entry>, cats: seq<Category>)
    requires forall i, j :: 0 <= i < j < |cats| ==> Rank(cats[i]) < Rank(cats[j])
    ensures forall i, j :: 0 <= i < j < |Sections(cmds, cats)| ==>
      Rank(Sections(cmds, cats)[i].0) < Rank(Sections(cmds, cats)[j].0)
  {
    if cats != [] {
      var pre := cats[..|cats| - 1];
      var c := cats[|cats| - 1];
      SectionsOrdered(cmds, pre);
      SectionsContent(cmds, pre);
      var lp := Sections(cmds, pre);
      assert forall i :: 0 <= i < |lp| ==> Rank(lp[i].0) < Rank(c) by {
        forall i | 0 <= i < |lp|
          ensures Rank(lp[i].0) < Rank(c)
        {
          var k :| 0 <= k < |pre| && pre[k] == lp[i].0;
          assert cats[k] == pre[k];
        }
      }
    }
  }

  /** With distinct categories asked for, a category has a section exactly
      when its group is not empty. */
  lemma {:induction false} SectionsCover(cmds: seq<Entry>, cats: seq<Category>)
    requires forall i, j :: 0 <= i < j < |cats| ==> Rank(cats[i]) < Rank(cats[j])
    ensures forall d :: d in cats ==> ((d, InCategory(cmds, d)) in Sections(cmds, cats) <==> InCategory(cmds, d) != [])
  {
    if cats != [] {
      var pre := cats[..|cats| - 1];
      var c := cats[|cats| - 1];
      SectionsCover(cmds, pre);
      SectionsContent(cmds, pre);
      var lp := Sections(cmds, pre);
      assert c !in pre by {
        forall k | 0 <= k < |pre|
          ensures pre[k] != c
        {
          assert cats[k] == pre[k];
        }
      }
      assert (c, InCategory(cmds, c)) !in lp;
      forall d | d in cats && d != c
        ensures d in pre
      {
        var k :| 0 <= k < |cats| && cats[k] == d;
        assert pre[k] == d;
      }
    }
  }

  /** `showCommandList`: sort the commands into four lists in one pass,
      then print the non-empty ones in the fixed order. */
  method ShowCommandList(cmds: seq<Entry>) returns (sections: seq<(Category, seq<Entry>)>)
    ensures sections == Listing(cmds)
  {
    var general, game, admin, owner := SortIntoCategories(cmds);
    sections := NonEmptySections(cmds, [general, game, admin, owner]);
  }

  /** The first loop of `showCommandList`: one pass over the commands,
      appending each to the list of its category. */
  method SortIntoCategories(cmds: seq<Entry>) returns (general: seq<Entry>, game: seq<Entry>, admin: seq<Entry>, owner: seq<Entry>)
    ensures general == InCategory(cmds, General) && game == InCategory(cmds, Game)
    ensures admin == InCategory(cmds, Admin) && owner == InCategory(cmds, Owner)
  {
    general, game, admin, owner := [], [], [], [];
    var i := 0;
    while i < |cmds|
      invariant 0 <= i <= |cmds|
      invariant general == InCategory(cmds[..i], General) && game == InCategory(cmds[..i], Game)
      invariant admin == InCategory(cmds[..i], Admin) && owner == InCategory(cmds[..i], Owner)
    {
      InCategoryStep(cmds, i);
      var cmd := Displayed(cmds[i]);
      var name := cmds[i].name;
      if name == "start" || name == "help" || name == "menu" {
        general := general + [cmd];
      } else if name == "tebak" {
        game := game + [cmd];
      } else if Includes(name, "owner") || Includes(name, "prem") {
        owner := owner + [cmd];
      } else {
        admin := admin + [cmd];
      }
      i := i + 1;
    }
    assert cmds[..i] == cmds;
  }

  /** One more command extends the list of its own category only. */
  lemma InCategoryStep(cmds: seq<Entry>, i: nat)
    requires i < |cmds|
    ensures forall c :: (InCategory(cmds[..i + 1], c) ==
      InCategory(cmds[..i], c) + (if CategoryOf(cmds[i].name) == c then [Displayed(cmds[i])] else []))
  {
    assert cmds[..i + 1][..i] == cmds[..i];
  }

  /** The second loop of `showCommandList`: the groups, in the fixed
      category order, with the empty ones left out. */
  method NonEmptySections(cmds: seq<Entry>, groups: seq<seq<Entry>>) returns (sections: seq<(Category, seq<Entry>)>)
    requires |groups| == 4 && forall j :: 0 <= j < 4 ==> groups[j] == InCategory(cmds, CategoryOrder[j])
    ensures sections == Listing(cmds)
  {
    sections := [];
    var j := 0;
    while j < 4
      invariant 0 <= j <= 4
      invariant sections == Sections(cmds, CategoryOrder[..j])
    {
      assert CategoryOrder[..j + 1][..j] == CategoryOrder[..j];
      if |groups[j]| > 0 {
        sections := sections + [(CategoryOrder[j], groups[j])];
      }
      j := j + 1;
    }
    assert CategoryOrder[..4] == CategoryOrder;
  }

  /** A name ending in `sub` includes it. */
  lemma {:induction false} IncludesSuffix(pre: string, sub: string)
    ensures Includes(pre + sub, sub)
    decreases |pre|
  {
    if pre != [] {
      assert (pre + sub)[1..] == pre[1..] + sub;
      IncludesSuffix(pre[1..], sub);
    } else {
      assert pre + sub == sub;
    }
  }

  /** A string none of whose characters is `sub[p]` does not include `sub`. */
  lemma {:induction false} NotIncluded(s: string, sub: string, p: nat)
    requires p < |sub| && sub[p] !in s
    ensures !Includes(s, sub)
    decreases |s|
  {
    if s != [] {
      NotIncluded(s[1..], sub, p);
    }
  }

  /** The tenant owner commands are owner commands. */
  lemma AddOwnerIsOwner()
    ensures CategoryOf("addowner") == Owner
  {
    IncludesSuffix("add", "owner");
    assert "add" + "owner" == "addowner";
  }

  lemma DelPremIsOwner()
    ensures CategoryOf("delprem") == Owner
  {
    IncludesSuffix("del", "prem");
    assert "del" + "prem" == "delprem";
  }

  /** A name longer than the general and game names, with no `w` and no
      `p` in it, matches none of the rules: it is an admin command. */
  lemma AdminByLetters(name: string)
    requires |name| > 5 && 'w' !in name && 'p' !in name
    ensures CategoryOf(name) == Admin
  {
    assert !Includes(name, "owner") by {
      assert "owner"[1] == 'w';
      NotIncluded(name, "owner", 1);
    }
    assert !Includes(name, "prem") by {
      assert "prem"[0] == 'p';
      NotIncluded(name, "prem", 0);
    }
  }

  lemma SetNameBotIsAdmin()
    ensures CategoryOf("setnamebot") == Admin
  {
    var s := "setnamebot";
    assert |s| == 10 && 'w' !in s && 'p' !in s;
    AdminByLetters(s);
  }

  /** What `showCommandDetail` prints about a command. */
  datatype Detail = Detail(name: string, description: string, sessions: bool, actions: bool, handlers: bool)

  /** `showCommandDetail`: the first `/` of the argument is dropped and the
      name looked up; the three feature lines depend on the command being
      built on the template and having actions or text handlers. */
  method ShowCommandDetail<P, H>(m: Manager<P, H>, arg: string) returns (detail: Option<Detail>)
    ensures detail.None? <==> !HasKey(m.commands, RemoveFirst(arg, '/'))
    ensures detail.Some? ==>
      var c := Get(m.commands, RemoveFirst(arg, '/')).value;
      detail.value == Detail(c.name, ShownDescription(c.description), c.isTemplate,
                             c.isTemplate && |c.actions| > 0, c.isTemplate && |c.handlers| > 0)
  {
    var command := m.GetCommand(RemoveFirst(arg, '/'));
    if command.None? {
      return None;
    }
    var c := command.value;
    detail := Some(Detail(c.name, ShownDescription(c.description), c.isTemplate,
                          c.isTemplate && |c.actions| > 0, c.isTemplate && |c.handlers| > 0));
  }

  datatype HelpReply = List(sections: seq<(Category, seq<Entry>)>) | Details(detail: Option<Detail>)

  /** `execute`: `/help name` shows one command, `/help` the list. */
  method Execute<P, H>(text: string, cmds: seq<Entry>, m: Manager<P, H>) returns (reply: HelpReply)
    ensures |Split(text, ' ')| > 1 <==> reply.Details?
    ensures reply.List? ==> reply.sections == Listing(cmds)
    ensures reply.Details? ==> (reply.detail.None? <==> !HasKey(m.commands, RemoveFirst(Split(text, ' ')[1], '/')))
  {
    var args := Split(text, ' ');
    if |args| > 1 {
      var d := ShowCommandDetail(m, args[1]);
      return Details(d);
    }
    var sections := ShowCommandList(cmds);
    reply := List(sections);
  }
}
