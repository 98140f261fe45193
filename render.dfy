/**
 What the page renders: the text of a user-list item, the logo path of a
 stock, and the two lists built one element per record (the user list and the
 portfolio rows).
 */
module Render {
  import opened Records

  /** The text of a user-list item: last name, a comma and a space, first name. */
  function Label(p: Profile): (r: string)
    ensures |r| == |p.lastname| + 2 + |p.firstname|
    ensures r[..|p.lastname|] == p.lastname
    ensures r[|p.lastname|..|p.lastname| + 2] == ", "
    ensures r[|p.lastname| + 2..] == p.firstname
  {
    p.lastname + ", " + p.firstname
  }

  /** The index of the first comma in `s`, or -1 when there is none. */
  function CommaIndex(s: string): (r: int)
    ensures -1 <= r < |s|
    ensures r == -1 <==> ',' !in s
    ensures r != -1 ==> s[r] == ',' && ',' !in s[..r]
  {
    if s == [] then -1
    else if s[0] == ',' then 0
    else
      var k := CommaIndex(s[1..]);
      assert s == [s[0]] + s[1..];
      if k == -1 then -1
      else
        assert s[..k + 1] == [s[0]] + s[1..][..k];
        k + 1
  }

  /** Reads a list-item text back as (last name, first name), splitting at the
      first comma, which must be followed by a space. */
  function SplitLabel(text: string): Option<(string, string)> {
    var k := CommaIndex(text);
    if k == -1 || k + 1 == |text| || text[k + 1] != ' ' then None
    else Some((text[..k], text[k + 2..]))
  }

  /** A list item names its user unambiguously unless the last name holds a comma. */
  lemma LabelRoundTrip(p: Profile)
    requires ',' !in p.lastname
    ensures SplitLabel(Label(p)) == Some((p.lastname, p.firstname))
  {
    var text := Label(p);
    var n := |p.lastname|;
    assert text[n] == ',';
    assert text[..n] == p.lastname;
    assert CommaIndex(text) == n;
  }

  /** Two different users can be shown with the same text when a last name
      holds a comma followed by a space. */
  lemma LabelAmbiguous()
    ensures Label(Profile("Smith", "Lee, Ann", "", "", "")) == Label(Profile("Ann, Smith", "Lee", "", "", ""))
  {
  }

  /** The logo image source of a stock symbol. */
  function LogoPath(symbol: string): (r: string)
    ensures |r| == |symbol| + 10
    ensures r[..6] == "logos/" && r[6..|r| - 4] == symbol && r[|r| - 4..] == ".svg"
  {
    "logos/" + symbol + ".svg"
  }

  /** Reads a logo path back as the symbol it was made from. */
  function SymbolOfLogo(path: string): Option<string> {
    if |path| >= 10 && path[..6] == "logos/" && path[|path| - 4..] == ".svg"
    then Some(path[6..|path| - 4])
    else None
  }

  /** The symbol is recovered from its logo path, so distinct symbols have
      distinct logos, and no logo path is the blank source. */
  lemma LogoRoundTrip(symbol: string)
    ensures SymbolOfLogo(LogoPath(symbol)) == Some(symbol)
    ensures LogoPath(symbol) != ""
  {
  }

  /** The list item rendered for a user: it carries the user's id, and its
      text is the last name, a comma and a space, then the first name. */
  function EntryFor(u: User): (r: Entry)
    ensures r.userId == u.id
    ensures |r.text| == |u.profile.lastname| + 2 + |u.profile.firstname|
    ensures r.text[..|u.profile.lastname|] == u.profile.lastname
    ensures r.text[|u.profile.lastname|..|u.profile.lastname| + 2] == ", "
    ensures r.text[|u.profile.lastname| + 2..] == u.profile.firstname
  {
    Entry(Label(u.profile), u.id)
  }

  /** `entries` shows exactly `users`: one item per user, in order. */
  ghost predicate Mirrors(entries: seq<Entry>, users: seq<User>) {
    |entries| == |users| && forall i :: 0 <= i < |users| ==> entries[i] == EntryFor(users[i])
  }

  /** Builds the user list, one item per user in input order, each labelled
      with the user's names and carrying the user's id. */
  method BuildUserList(users: seq<User>) returns (entries: seq<Entry>)
    ensures |entries| == |users|
    ensures forall i :: 0 <= i < |users| ==>
              entries[i].text == users[i].profile.lastname + ", " + users[i].profile.firstname
              && entries[i].userId == users[i].id
  {
    entries := [];
    for i := 0 to |users|
      invariant |entries| == i
      invariant forall j :: 0 <= j < i ==> entries[j] == EntryFor(users[j])
    {
      entries := entries + [EntryFor(users[i])];
    }
  }

  /** The portfolio rows of a list of holdings, one per holding in order; the
      View button of row i is keyed by the symbol of holding i. */
  function Rows(holdings: seq<Holding>): (r: seq<Row>)
    ensures |r| == |holdings|
    ensures forall i :: 0 <= i < |holdings| ==> r[i].symbol == holdings[i].symbol && r[i].owned == holdings[i].owned
  {
    seq(|holdings|, i requires 0 <= i < |holdings| => Row(holdings[i].symbol, holdings[i].owned))
  }

  /** Builds the portfolio rows, one (symbol, owned) row per holding, in order. */
  method BuildPortfolioRows(holdings: seq<Holding>) returns (rows: seq<Row>)
    ensures |rows| == |holdings|
    ensures forall i :: 0 <= i < |holdings| ==>
              rows[i].symbol == holdings[i].symbol && rows[i].owned == holdings[i].owned
  {
    rows := [];
    for i := 0 to |holdings|
      invariant |rows| == i
      invariant forall j :: 0 <= j < i ==> rows[j] == Row(holdings[j].symbol, holdings[j].owned)
    {
      rows := rows + [Row(holdings[i].symbol, holdings[i].owned)];
    }
  }
}
