/**
 The page's view-state controller: the user collection it edits, the stock
 data it reads, and the four surfaces it draws (the user list, the edit form,
 the portfolio rows and the stock-detail panel), with one method per event
 handler and per helper that writes to a surface.
 */
module App {
  import opened Records
  import opened Lookup
  import opened Store
  import opened Render

  /** The detail panel filled from a stock: never the blank panel, and its
      logo names the stock's symbol. */
  function DetailOf(s: Stock): (r: Detail)
    ensures r != BlankDetail
    ensures SymbolOfLogo(r.logo) == Some(s.symbol)
  {
    LogoRoundTrip(s.symbol);
    Detail(s.name, s.sector, s.subIndustry, s.address, LogoPath(s.symbol))
  }

  class Controller {
    /** The user collection; save edits it in place, delete splices it. */
    var users: seq<User>
    /** The stock reference data; never changed. */
    const stocks: seq<Stock>
    /** The items of the rendered user list. */
    var userList: seq<Entry>
    /** The values in the edit form's inputs. */
    var form: FormValues
    /** The rows under the portfolio headers; [] is the header-only table. */
    var portfolio: seq<Row>
    /** The stock-detail panel. */
    var detail: Detail

    /** What every handler keeps: the list shows the collection as it is, the
        portfolio table is header-only or shows a user still in the collection,
        and the detail panel is blank or shows one of the stocks. */
    ghost predicate Valid()
      reads this
    {
      && Mirrors(userList, users)
      && (portfolio == [] || exists k :: 0 <= k < |users| && portfolio == Rows(users[k].portfolio))
      && (detail == BlankDetail || exists k :: 0 <= k < |stocks| && detail == DetailOf(stocks[k]))
    }

    /** Page load: take the parsed users and stocks and render the user list.
        The form, the portfolio table and the panel start empty. */
    constructor (initialUsers: seq<User>, initialStocks: seq<Stock>)
      ensures Valid()
      ensures users == initialUsers && stocks == initialStocks
      ensures form == EmptyForm && portfolio == [] && detail == BlankDetail
    {
      users := initialUsers;
      stocks := initialStocks;
      userList := [];
      form := EmptyForm;
      portfolio := [];
      detail := BlankDetail;
      new;
      GenerateUserList();
    }

    /** Re-renders the user list from the current collection. */
    method GenerateUserList()
      modifies this`userList
      ensures Mirrors(userList, users)
    {
      userList := BuildUserList(users);
    }

    /** Copies a user's id and editable fields into the form. */
    method PopulateForm(u: User)
      modifies this`form
      ensures form == FormValues(u.id, u.profile)
    {
      form := FormValues(u.id, u.profile);
    }

    /** Replaces the portfolio rows with one row per holding of `u`. */
    method RenderPortfolio(u: User)
      modifies this`portfolio
      ensures portfolio == Rows(u.portfolio)
    {
      portfolio := BuildPortfolioRows(u.portfolio);
    }

    /** A click in the user list. On a list item whose id some user has, the
        first such user fills the form and the portfolio table; any other
        click changes nothing. The detail panel is never touched. */
    method UserListClick(target: Target)
      requires Valid()
      modifies this`form, this`portfolio
      ensures Valid()
      ensures target.tagName == "LI" && FindUser(users, target.key).Some? ==>
                var u := FindUser(users, target.key).value;
                form == FormValues(u.id, u.profile) && portfolio == Rows(u.portfolio)
      ensures target.tagName != "LI" || FindUser(users, target.key).None? ==>
                form == old(form) && portfolio == old(portfolio)
    {
      if target.tagName == "LI" {
        var found := FindUser(users, target.key);
        if found.Some? {
          PopulateForm(found.value);
          RenderPortfolio(found.value);
        }
      }
    }

    /** A click in the portfolio table: a View button shows its stock. */
    method PortfolioClick(target: Target)
      requires Valid()
      modifies this`detail
      ensures Valid()
      ensures target.tagName == "BUTTON" && FindStock(stocks, target.key).Some? ==>
                detail == DetailOf(FindStock(stocks, target.key).value)
      ensures target.tagName != "BUTTON" || FindStock(stocks, target.key).None? ==>
                detail == old(detail)
    {
      if target.tagName == "BUTTON" {
        ViewStock(target.key);
      }
    }

    /** Shows the first stock whose symbol is exactly `symbol`, with the logo
        path made from `symbol`; an unknown symbol leaves the panel as it is. */
    method ViewStock(symbol: string)
      requires Valid()
      modifies this`detail
      ensures Valid()
      ensures FindStock(stocks, symbol).Some? ==>
                var s := FindStock(stocks, symbol).value;
                detail == Detail(s.name, s.sector, s.subIndustry, s.address, "logos/" + symbol + ".svg")
      ensures FindStock(stocks, symbol).None? ==> detail == old(detail)
    {
      var found := FindStock(stocks, symbol);
      if found.Some? {
        var s := found.value;
        detail := Detail(s.name, s.sector, s.subIndustry, s.address, LogoPath(symbol));
      }
    }

    /** Blanks every field of the detail panel and the logo. */
    method ClearStockDetails()
      requires Valid()
      modifies this`detail
      ensures Valid()
      ensures detail == BlankDetail
    {
      detail := BlankDetail;
    }

    /** The user types into the form's inputs: the values the next save or
        delete click reads. */
    method EnterForm(values: FormValues)
      requires Valid()
      modifies this`form
      ensures Valid()
      ensures form == values
    {
      form := values;
    }

    /** The save button. When some user has the form's id, the first such user
        gets the form's five field values, nothing else in the collection
        changes, and the list is re-rendered; otherwise nothing changes. */
    method Save()
      requires Valid()
      modifies this`users, this`userList
      ensures Valid()
      ensures users == Saved(old(users), form.id, form.profile)
      ensures FindIndex(old(users), form.id) == -1 ==> users == old(users) && userList == old(userList)
    {
      var id := form.id;
      var i := FindIndex(users, id);
      if i != -1 {
        SavedAt(users, id, form.profile);
        ghost var before := users;
        users := users[i := users[i].(profile := form.profile)];
        assert users == Saved(before, id, form.profile);
        GenerateUserList();
        if portfolio != [] {
          ghost var k :| 0 <= k < |before| && portfolio == Rows(before[k].portfolio);
          assert users[k].portfolio == before[k].portfolio;
        }
      } else {
        SavedOnMiss(users, id, form.profile);
      }
    }

    /** The delete button. When some user has the form's id, the first such user
        is spliced out, the list is re-rendered, the portfolio table goes back
        to its headers, the detail panel is blanked and the form is reset;
        otherwise nothing changes. */
    method Delete()
      requires Valid()
      modifies this`users, this`userList, this`portfolio, this`detail, this`form
      ensures Valid()
      ensures users == Removed(old(users), old(form).id)
      ensures FindIndex(old(users), old(form).id) != -1 ==>
                portfolio == [] && detail == BlankDetail && form == EmptyForm
      ensures FindIndex(old(users), old(form).id) == -1 ==>
                users == old(users) && userList == old(userList) && portfolio == old(portfolio)
                && detail == old(detail) && form == old(form)
    {
      var id := form.id;
      var i := FindIndex(users, id);
      if i != -1 {
        RemovedAt(users, id);
        users := users[..i] + users[i + 1..];
        GenerateUserList();
        portfolio := [];
        ClearStockDetails();
        form := EmptyForm;
      } else {
        RemovedOnMiss(users, id);
      }
    }
  }

  /** A click on the k-th rendered list item selects the first user with that
      item's id, which is the k-th user itself when ids are unique. */
  lemma SelectRenderedItem(entries: seq<Entry>, users: seq<User>, k: nat)
    requires Mirrors(entries, users) && k < |users|
    ensures FindUser(users, entries[k].userId).Some?
    ensures FindIndex(users, entries[k].userId) <= k
    ensures FindUser(users, entries[k].userId) == Some(users[FindIndex(users, entries[k].userId)])
    ensures UniqueIds(users) ==> FindUser(users, entries[k].userId) == Some(users[k])
  {
    FindUserAtFindIndex(users, entries[k].userId);
    if UniqueIds(users) {
      UniqueIdsFindIndex(users, k);
    }
  }

  /** An example session, first half: one user with one holding and one
      stock; select the user, view the stock, select the user again. */
  method ExampleSelectAndView()
  {
    var bUser := User("1", Profile("A", "B", "", "", ""), [Holding("X", 5)]);
    var xco := Stock("X", "Xco", "", "", "");
    assert FindUser([bUser], "1") == Some(bUser);
    assert FindStock([xco], "X") == Some(xco);
    assert FindStock([xco], "Y") == None;
    var page := new Controller([bUser], [xco]);
    assert page.userList[0].text == "B" + ", " + "A";

    page.UserListClick(Target("LI", "1"));
    assert page.form == FormValues("1", Profile("A", "B", "", "", ""));
    assert page.portfolio == [Row("X", 5)];

    page.PortfolioClick(Target("BUTTON", page.portfolio[0].symbol));
    assert page.detail == DetailOf(xco);

    // selecting a user again leaves the detail panel as it was
    page.UserListClick(Target("LI", "1"));
    assert page.detail == DetailOf(xco);

    // an unknown symbol, and a click beside the buttons, change nothing
    page.ViewStock("Y");
    page.PortfolioClick(Target("SPAN", "X"));
    assert page.detail == DetailOf(xco);

    // clearing twice is clearing once
    page.ClearStockDetails();
    page.ClearStockDetails();
    assert page.detail == BlankDetail;
  }

  /** An example session, second half: edit and save the user, then
      delete it. */
  method ExampleSaveAndDelete()
  {
    var bUser := User("1", Profile("A", "B", "", "", ""), [Holding("X", 5)]);
    var edited := Profile("Ann", "Bell", "", "", "");
    var page := new Controller([bUser], []);

    page.EnterForm(FormValues("2", edited));
    assert FindIndex([bUser], "2") == -1;
    page.Save();
    assert page.users == [bUser];

    page.EnterForm(FormValues("1", edited));
    assert FindIndex([bUser], "1") == 0;
    page.Save();
    assert page.users == [User("1", edited, [Holding("X", 5)])];

    page.Delete();
    assert page.users == [];
    assert page.portfolio == [] && page.detail == BlankDetail && page.form == EmptyForm;
  }
}
