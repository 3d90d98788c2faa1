/**
 * `CategoryController`: the create, edit and delete flows for categories,
 * each remembering in the session where the user came from, and the page
 * offset of the category's journal list. Categories are persisted through a
 * repository, modelled as insert, update and remove on a table of rows.
 */
module Categories {
  import opened Framework
  import opened Navigation

  const CreateUrl := "categories.create.url"
  const CreateFromStore := "categories.create.fromStore"
  const EditUrl := "categories.edit.url"
  const EditFromUpdate := "categories.edit.fromUpdate"
  const DeleteUrl := "categories.delete.url"

  /** Journals listed per page by `show()`. */
  const PageSize := 50

  datatype Category = Category(id: nat, name: string, user: nat)

  /** Flash text after `store`. */
  function StoredMessage(name: string): (msg: string)
    ensures Contains(msg, name)
  {
    ContainsMiddle("New category \"", name, "\" stored!");
    "New category \"" + name + "\" stored!"
  }

  /** Flash text after `update`. */
  function UpdatedMessage(name: string): (msg: string)
    ensures Contains(msg, name)
  {
    ContainsMiddle("Category \"", name, "\" updated.");
    "Category \"" + name + "\" updated."
  }

  /** Flash text after `destroy` (the doubled space is in the PHP message text). */
  function DeletedMessage(name: string): (msg: string)
    ensures Contains(msg, name)
  {
    ContainsMiddle("The  category \"", Escape(name), "\" was deleted.");
    "The  category \"" + Escape(name) + "\" was deleted."
  }

  /**
   * The number of journals `show()` skips for the requested page: whole
   * pages only, never negative, and nothing for a page that is absent or
   * not positive.
   */
  function ShowOffset(page: int): (offset: nat)
    ensures offset % PageSize == 0
    ensures page > 0 ==> offset / PageSize == page
    ensures page <= 0 ==> offset == 0
  {
    if page > 0 then page * PageSize else 0
  }

  /**
   * As written, the page the paginator numbers 1 skips a whole page: the
   * first `PageSize` journals are on no page numbered from 1 upwards.
   */
  lemma FirstJournalsOnNoNumberedPage(row: nat, page: int)
    requires row < PageSize && page >= 1
    ensures !(ShowOffset(page) <= row < ShowOffset(page) + PageSize)
  {
  }

  /** The offset for 1-based page numbers: page 1 (or an absent page) starts at the first journal. */
  function PageOffset(page: int): (offset: nat)
    ensures offset % PageSize == 0
    ensures page >= 1 ==> offset / PageSize == page - 1
    ensures page <= 1 ==> offset == 0
  {
    if page > 1 then (page - 1) * PageSize else 0
  }

  /** With `PageOffset`, every journal is listed on exactly one page numbered from 1. */
  lemma RowOnExactlyOnePage(row: nat, page: int)
    requires page >= 1
    ensures PageOffset(page) <= row < PageOffset(page) + PageSize <==> page == row / PageSize + 1
  {
    var q := row / PageSize;
    assert row == q * PageSize + row % PageSize;
    if page == q + 1 {
      assert PageOffset(page) == q * PageSize;
    } else if page <= q {
      assert PageOffset(page) + PageSize == page * PageSize <= q * PageSize;
    } else {
      assert PageOffset(page) == (page - 1) * PageSize >= (q + 1) * PageSize;
    }
  }

  /** The category repository: rows by id, the next id to hand out, and the ids destroyed so far. */
  class CategoryRepository {
    var rows: map<nat, Category>
    var nextId: nat
    var destroyed: seq<nat>

    ghost predicate Valid()
      reads this
    {
      forall id :: id in rows ==> id < nextId && rows[id].id == id
    }

    constructor ()
      ensures Valid() && rows == map[] && nextId == 0 && destroyed == []
    {
      rows, nextId, destroyed := map[], 0, [];
    }

    /** Inserts a new category with a fresh id. */
    method Store(name: string, user: nat) returns (c: Category)
      requires Valid()
      modifies this
      ensures Valid()
      ensures c == Category(old(nextId), name, user) && c.id !in old(rows)
      ensures rows == old(rows)[c.id := c] && destroyed == old(destroyed)
    {
      c := Category(nextId, name, user);
      rows := rows[c.id := c];
      nextId := nextId + 1;
    }

    /** Renames an existing category and saves it; the caller's category carries the new name. */
    method Update(c: Category, name: string) returns (updated: Category)
      requires Valid() && c.id in rows && rows[c.id] == c
      modifies this
      ensures Valid()
      ensures updated == c.(name := name)
      ensures rows == old(rows)[c.id := updated] && nextId == old(nextId) && destroyed == old(destroyed)
    {
      updated := c.(name := name);
      rows := rows[c.id := updated];
    }

    /** Removes a category. */
    method Destroy(c: Category)
      requires Valid()
      modifies this
      ensures Valid()
      ensures rows == old(rows) - {c.id} && nextId == old(nextId) && destroyed == old(destroyed) + [c.id]
    {
      rows := rows - {c.id};
      destroyed := destroyed + [c.id];
    }
  }

  class CategoryController {
    const session: Session

    constructor (session: Session)
      ensures this.session == session
    {
      this.session := session;
    }

    /** `create()`: remember the previous page unless coming back from "create another". */
    method Create(previous: string) returns (r: Response)
      modifies session
      ensures session.data == EnterForm(old(session.data), CreateUrl, CreateFromStore, previous)
      ensures session.flash == old(session.flash)
      ensures r == View("categories.create")
    {
      if session.Get(CreateFromStore) != Some(Flag(true)) {
        session.Put(CreateUrl, Text(previous));
      }
      session.Forget(CreateFromStore);
      r := View("categories.create");
    }

    /** `delete()`: always remember the previous page, then show the confirmation form. */
    method Delete(previous: string) returns (r: Response)
      modifies session
      ensures session.data == old(session.data)[DeleteUrl := Text(previous)]
      ensures session.flash == old(session.flash)
      ensures r == View("categories.delete")
    {
      session.Put(DeleteUrl, Text(previous));
      r := View("categories.delete");
    }

    /** `destroy()`: destroy once, flash the name, go back to the page remembered by `delete()`. */
    method Destroy(category: Category, repository: CategoryRepository) returns (r: Response)
      requires repository.Valid()
      modifies session, repository
      ensures repository.Valid()
      ensures repository.rows == old(repository.rows) - {category.id}
      ensures repository.destroyed == old(repository.destroyed) + [category.id]
      ensures repository.nextId == old(repository.nextId)
      ensures session.data == old(session.data)
      ensures session.flash == Some(Flash(Success, DeletedMessage(category.name)))
      ensures r == RedirectTo(Lookup(old(session.data), DeleteUrl))
    {
      var name := category.name;
      repository.Destroy(category);
      session.SetFlash(Success, DeletedMessage(name));
      r := RedirectTo(session.Get(DeleteUrl));
    }

    /** `edit()`: remember the previous page unless coming back from "return to edit". */
    method Edit(previous: string) returns (r: Response)
      modifies session
      ensures session.data == EnterForm(old(session.data), EditUrl, EditFromUpdate, previous)
      ensures session.flash == old(session.flash)
      ensures r == View("categories.edit")
    {
      if session.Get(EditFromUpdate) != Some(Flag(true)) {
        session.Put(EditUrl, Text(previous));
      }
      session.Forget(EditFromUpdate);
      r := View("categories.edit");
    }

    /**
     * `store()`: insert, flash the name, then either loop back to the create
     * form (raising the flag) or go to the page remembered by `create()`.
     * `createAnother` is the integer value of the `create_another` input.
     */
    method Store(name: string, user: nat, createAnother: int, repository: CategoryRepository) returns (r: Response)
      requires repository.Valid()
      modifies session, repository
      ensures repository.Valid()
      ensures old(repository.nextId) !in old(repository.rows)
      ensures repository.rows == old(repository.rows)[old(repository.nextId) := Category(old(repository.nextId), name, user)]
      ensures repository.destroyed == old(repository.destroyed)
      ensures session.flash == Some(Flash(Success, StoredMessage(name)))
      ensures createAnother == 1 ==>
        session.data == RaiseFlag(old(session.data), CreateFromStore) && r == RedirectRoute("categories.create", None, true)
      ensures createAnother != 1 ==>
        session.data == old(session.data) && r == RedirectTo(Lookup(old(session.data), CreateUrl))
    {
      var category := repository.Store(name, user);
      session.SetFlash(Success, StoredMessage(category.name));
      if createAnother == 1 {
        session.Put(CreateFromStore, Flag(true));
        return RedirectRoute("categories.create", None, true);
      }
      r := RedirectTo(session.Get(CreateUrl));
    }

    /**
     * `update()`: rename, flash the new name, then either loop back to the
     * edit form of the same category (raising the flag) or go to the page
     * remembered by `edit()`. `returnToEdit` is the integer value of the
     * `return_to_edit` input.
     */
    method Update(category: Category, name: string, returnToEdit: int, repository: CategoryRepository) returns (r: Response)
      requires repository.Valid() && category.id in repository.rows
      requires repository.rows[category.id] == category
      modifies session, repository
      ensures repository.Valid()
      ensures repository.rows == old(repository.rows)[category.id := category.(name := name)]
      ensures repository.nextId == old(repository.nextId) && repository.destroyed == old(repository.destroyed)
      ensures session.flash == Some(Flash(Success, UpdatedMessage(name)))
      ensures returnToEdit == 1 ==>
        session.data == RaiseFlag(old(session.data), EditFromUpdate)
        && r == RedirectRoute("categories.edit", Some(category.id), false)
      ensures returnToEdit != 1 ==>
        session.data == old(session.data) && r == RedirectTo(Lookup(old(session.data), EditUrl))
    {
      var updated := repository.Update(category, name);
      session.SetFlash(Success, UpdatedMessage(updated.name));
      if returnToEdit == 1 {
        session.Put(EditFromUpdate, Flag(true));
        return RedirectRoute("categories.edit", Some(category.id), false);
      }
      r := RedirectTo(session.Get(EditUrl));
    }
  }

  /**
   * Two categories created in one flow, the first with "create another":
   * the first store loops back to the form with a flash naming the category,
   * and the last store returns to the page the flow started from, not to the
   * page of the second visit.
   */
  method CreateAnotherScenario(m: Store, first: string, second: string, user: nat)
    returns (looped: Response, flash: Option<Flash>, finished: Response)
    requires !IsTrue(m, CreateFromStore)
    ensures looped == RedirectRoute("categories.create", None, true)
    ensures flash.Some? && flash.value.kind == Success && Contains(flash.value.message, "Groceries")
    ensures finished == RedirectTo(Some(Text(first)))
  {
    var session := new Session(m);
    var repository := new CategoryRepository();
    var controller := new CategoryController(session);
    var _ := controller.Create(first);
    looped := controller.Store("Groceries", user, 1, repository);
    flash := session.flash;
    var _ := controller.Create(second);
    finished := controller.Store("Rent", user, 0, repository);
  }

  /**
   * Deleting a category: `delete()` remembers the page it was asked from,
   * and `destroy()` removes the category once and returns to that page.
   */
  method DeleteScenario(m: Store, previous: string, user: nat)
    returns (finished: Response, gone: bool, destroyCalls: seq<nat>)
    ensures finished == RedirectTo(Some(Text(previous)))
    ensures gone && destroyCalls == [0]
  {
    var session := new Session(m);
    var repository := new CategoryRepository();
    var controller := new CategoryController(session);
    var _ := controller.Store("Groceries", user, 0, repository);
    var category := repository.rows[0];
    var _ := controller.Delete(previous);
    finished := controller.Destroy(category, repository);
    gone := category.id !in repository.rows;
    destroyCalls := repository.destroyed;
  }
}
