/**
 * `CurrencyController`: the create, edit and delete flows for currencies,
 * with the same return-URL protocol as categories, a delete that is blocked
 * while transactions still use the currency, and the action that makes a
 * currency the user's default. Currencies are rows of a table the controller
 * inserts into, saves and deletes from directly.
 */
module Currencies {
  import opened Framework
  import opened Navigation

  const CreateUrl := "currency.create.url"
  const CreateFromStore := "currency.create.fromStore"
  const EditUrl := "currency.edit.url"
  const EditFromUpdate := "currency.edit.fromUpdate"
  const DeleteUrl := "currency.delete.url"

  /** The key `store()` reads its return URL from: the categories' one, not `CreateUrl`. */
  const CategoriesCreateUrl := "categories.create.url"

  const PreferenceName := "currencyPreference"
  const SymbolCacheKey := "FFCURRENCYSYMBOL"
  const CodeCacheKey := "FFCURRENCYCODE"

  datatype Currency = Currency(id: nat, code: string, symbol: string, name: string)

  /** Flash text when transactions still use the currency. */
  function BlockedMessage(name: string): (msg: string)
    ensures Contains(msg, name)
  {
    ContainsMiddle("Cannot delete ", Escape(name), " because there are still transactions attached to it.");
    "Cannot delete " + Escape(name) + " because there are still transactions attached to it."
  }

  /** Flash text after a delete. */
  function DeletedMessage(name: string): (msg: string)
    ensures Contains(msg, name)
  {
    ContainsMiddle("Currency \"", Escape(name), "\" deleted");
    "Currency \"" + Escape(name) + "\" deleted"
  }

  /** Flash text after `store`. */
  function CreatedMessage(name: string): (msg: string)
    ensures Contains(msg, name)
  {
    ContainsMiddle("Currency \"", name, "\" created");
    "Currency \"" + name + "\" created"
  }

  /** Flash text after `update`. */
  function UpdatedMessage(name: string): (msg: string)
    ensures Contains(msg, name)
  {
    ContainsMiddle("Currency \"", Escape(name), "\" updated.");
    "Currency \"" + Escape(name) + "\" updated."
  }

  /** Flash text after `defaultCurrency`. */
  function DefaultMessage(name: string): (msg: string)
    ensures Contains(msg, name)
  {
    var suffix := " is now the default currency.";
    ContainsMiddle("", name, suffix);
    assert "" + name + suffix == name + suffix;
    name + suffix
  }

  /** The currency table: rows by id, the next id to hand out, and the ids deleted so far. */
  class CurrencyTable {
    var rows: map<nat, Currency>
    var nextId: nat
    var deleted: seq<nat>

    ghost predicate Valid()
      reads this
    {
      forall id :: id in rows ==> id < nextId && rows[id].id == id
    }

    constructor ()
      ensures Valid() && rows == map[] && nextId == 0 && deleted == []
    {
      rows, nextId, deleted := map[], 0, [];
    }

    /** `TransactionCurrency::create`: inserts a new row with a fresh id. */
    method Create(code: string, symbol: string, name: string) returns (c: Currency)
      requires Valid()
      modifies this
      ensures Valid()
      ensures c == Currency(old(nextId), code, symbol, name) && c.id !in old(rows)
      ensures rows == old(rows)[c.id := c] && deleted == old(deleted)
    {
      c := Currency(nextId, code, symbol, name);
      rows := rows[c.id := c];
      nextId := nextId + 1;
    }

    /** `$currency->save()` on an existing row. */
    method Save(c: Currency)
      requires Valid() && c.id in rows
      modifies this
      ensures Valid()
      ensures rows == old(rows)[c.id := c] && nextId == old(nextId) && deleted == old(deleted)
    {
      rows := rows[c.id := c];
    }

    /** `$currency->delete()`. */
    method Delete(c: Currency)
      requires Valid()
      modifies this
      ensures Valid()
      ensures rows == old(rows) - {c.id} && nextId == old(nextId) && deleted == old(deleted) + [c.id]
    {
      rows := rows - {c.id};
      deleted := deleted + [c.id];
    }
  }

  class CurrencyController {
    const session: Session
    const currencies: CurrencyTable
    const preferences: Preferences
    const cache: Cache

    constructor (session: Session, currencies: CurrencyTable, preferences: Preferences, cache: Cache)
      ensures this.session == session && this.currencies == currencies
      ensures this.preferences == preferences && this.cache == cache
    {
      this.session := session;
      this.currencies := currencies;
      this.preferences := preferences;
      this.cache := cache;
    }

    /** `create()`: remember the previous page unless coming back from "create another". */
    method Create(previous: string) returns (r: Response)
      modifies session
      ensures session.data == EnterForm(old(session.data), CreateUrl, CreateFromStore, previous)
      ensures session.flash == old(session.flash)
      ensures r == View("currency.create")
    {
      if session.Get(CreateFromStore) != Some(Flag(true)) {
        session.Put(CreateUrl, Text(previous));
      }
      session.Forget(CreateFromStore);
      r := View("currency.create");
    }

    /**
     * `defaultCurrency()`: the currency preference becomes the currency's
     * code, the two cached currency entries are dropped and no other entry is
     * touched. The PHP code first reads the stored preference, but only to
     * overwrite its data, so the read is not modelled.
     */
    method DefaultCurrency(currency: Currency) returns (r: Response)
      modifies preferences, session, cache
      ensures preferences.data == old(preferences.data)[PreferenceName := currency.code]
      ensures session.data == old(session.data)
      ensures session.flash == Some(Flash(Success, DefaultMessage(currency.name)))
      ensures cache.entries == old(cache.entries) - {SymbolCacheKey, CodeCacheKey}
      ensures r == RedirectRoute("currency.index", None, false)
    {
      preferences.Save(PreferenceName, currency.code);
      session.SetFlash(Success, DefaultMessage(currency.name));
      cache.Forget(SymbolCacheKey);
      cache.Forget(CodeCacheKey);
      r := RedirectRoute("currency.index", None, false);
    }

    /**
     * `delete()`: with transactions attached, flash an error, remember the
     * previous page and go to the index; otherwise show the confirmation form
     * and leave the session as it was. `journalCount` is the number of
     * transaction journals using the currency.
     */
    method Delete(currency: Currency, journalCount: nat, previous: string) returns (r: Response)
      modifies session
      ensures journalCount > 0 ==>
        && session.flash == Some(Flash(Error, BlockedMessage(currency.name)))
        && session.data == old(session.data)[DeleteUrl := Text(previous)]
        && r == RedirectRoute("currency.index", None, false)
      ensures journalCount == 0 ==>
        && session.flash == old(session.flash)
        && session.data == old(session.data)
        && r == View("currency.delete")
    {
      if journalCount > 0 {
        session.SetFlash(Error, BlockedMessage(currency.name));
        session.Put(DeleteUrl, Text(previous));
        return RedirectRoute("currency.index", None, false);
      }
      r := View("currency.delete");
    }

    /**
     * `destroy()`: with transactions attached, delete nothing, flash an error
     * and go to the index; otherwise flash success, delete once and go to
     * whatever the session holds for the delete flow, possibly nothing.
     */
    method Destroy(currency: Currency, journalCount: nat) returns (r: Response)
      requires currencies.Valid()
      modifies session, currencies
      ensures currencies.Valid()
      ensures session.data == old(session.data)
      ensures journalCount > 0 ==>
        && currencies.rows == old(currencies.rows)
        && currencies.deleted == old(currencies.deleted)
        && session.flash == Some(Flash(Error, BlockedMessage(currency.name)))
        && r == RedirectRoute("currency.index", None, false)
      ensures journalCount == 0 ==>
        && currencies.rows == old(currencies.rows) - {currency.id}
        && currencies.deleted == old(currencies.deleted) + [currency.id]
        && session.flash == Some(Flash(Success, DeletedMessage(currency.name)))
        && r == RedirectTo(Lookup(old(session.data), DeleteUrl))
      ensures currencies.nextId == old(currencies.nextId)
    {
      if journalCount > 0 {
        session.SetFlash(Error, BlockedMessage(currency.name));
        return RedirectRoute("currency.index", None, false);
      }
      session.SetFlash(Success, DeletedMessage(currency.name));
      currencies.Delete(currency);
      r := RedirectTo(session.Get(DeleteUrl));
    }

    /** `edit()`: remember the previous page unless coming back from "return to edit". */
    method Edit(previous: string) returns (r: Response)
      modifies session
      ensures session.data == EnterForm(old(session.data), EditUrl, EditFromUpdate, previous)
      ensures session.flash == old(session.flash)
      ensures r == View("currency.edit")
    {
      if session.Get(EditFromUpdate) != Some(Flag(true)) {
        session.Put(EditUrl, Text(previous));
      }
      session.Forget(EditFromUpdate);
      r := View("currency.edit");
    }

    /**
     * `store()`: insert, flash the name, then either loop back to the create
     * form (raising the flag) or go to the URL held under
     * `categories.create.url`, the key the PHP code reads.
     */
    method Store(name: string, code: string, symbol: string, createAnother: int) returns (r: Response)
      requires currencies.Valid()
      modifies session, currencies
      ensures currencies.Valid()
      ensures old(currencies.nextId) !in old(currencies.rows)
      ensures currencies.rows
        == old(currencies.rows)[old(currencies.nextId) := Currency(old(currencies.nextId), code, symbol, name)]
      ensures currencies.deleted == old(currencies.deleted)
      ensures session.flash == Some(Flash(Success, CreatedMessage(name)))
      ensures createAnother == 1 ==>
        session.data == RaiseFlag(old(session.data), CreateFromStore) && r == RedirectRoute("currency.create", None, true)
      ensures createAnother != 1 ==>
        session.data == old(session.data) && r == RedirectTo(Lookup(old(session.data), CategoriesCreateUrl))
    {
      var currency := currencies.Create(code, symbol, name);
      session.SetFlash(Success, CreatedMessage(currency.name));
      if createAnother == 1 {
        session.Put(CreateFromStore, Flag(true));
        return RedirectRoute("currency.create", None, true);
      }
      r := RedirectTo(session.Get(CategoriesCreateUrl));
    }

    /**
     * `update()`: overwrite code, symbol and name, save, flash the new name,
     * then either loop back to the edit form of the same currency (raising
     * the flag) or go to the page remembered by `edit()`.
     */
    method Update(currency: Currency, code: string, symbol: string, name: string, returnToEdit: int) returns (r: Response)
      requires currencies.Valid() && currency.id in currencies.rows
      requires currencies.rows[currency.id] == currency
      modifies session, currencies
      ensures currencies.Valid()
      ensures currencies.rows
        == old(currencies.rows)[currency.id := currency.(code := code, symbol := symbol, name := name)]
      ensures currencies.nextId == old(currencies.nextId) && currencies.deleted == old(currencies.deleted)
      ensures session.flash == Some(Flash(Success, UpdatedMessage(name)))
      ensures returnToEdit == 1 ==>
        session.data == RaiseFlag(old(session.data), EditFromUpdate)
        && r == RedirectRoute("currency.edit", Some(currency.id), false)
      ensures returnToEdit != 1 ==>
        session.data == old(session.data) && r == RedirectTo(Lookup(old(session.data), EditUrl))
    {
      var updated := currency.(code := code, symbol := symbol, name := name);
      currencies.Save(updated);
      session.SetFlash(Success, UpdatedMessage(updated.name));
      if returnToEdit == 1 {
        session.Put(EditFromUpdate, Flag(true));
        return RedirectRoute("currency.edit", Some(updated.id), false);
      }
      r := RedirectTo(session.Get(EditUrl));
    }
  }

  /**
   * The "return to edit" loop on a currency: the update that asks to return
   * goes back to the same currency's edit form, and the final update goes
   * to the page the flow started from, not to the page of the second visit.
   */
  method ReturnToEditScenario(m: Store, first: string, second: string)
    returns (looped: Response, finished: Response)
    requires !IsTrue(m, EditFromUpdate)
    ensures looped == RedirectRoute("currency.edit", Some(0), false)
    ensures finished == RedirectTo(Some(Text(first)))
  {
    var session := new Session(m);
    var currencies := new CurrencyTable();
    var preferences := new Preferences(map[]);
    var cache := new Cache(map[]);
    var controller := new CurrencyController(session, currencies, preferences, cache);
    var _ := controller.Store("Euro", "EUR", "E", 0);
    var currency := currencies.rows[0];
    var _ := controller.Edit(first);
    looped := controller.Update(currency, "EUR", "E", "Euro", 1);
    var _ := controller.Edit(second);
    finished := controller.Update(currency, "EUR", "E", "Euro", 0);
  }

  /**
   * Deleting a currency that transactions still use: neither the
   * confirmation form nor the delete goes through, the currency stays, and
   * the error names it.
   */
  method BlockedDeleteScenario(m: Store, previous: string, journalCount: nat)
    returns (shown: Response, destroyed: Response, stillThere: bool, flash: Option<Flash>)
    requires journalCount > 0
    ensures shown == RedirectRoute("currency.index", None, false)
    ensures destroyed == RedirectRoute("currency.index", None, false)
    ensures stillThere
    ensures flash.Some? && flash.value.kind == Error && Contains(flash.value.message, "EUR")
  {
    var session := new Session(m);
    var currencies := new CurrencyTable();
    var preferences := new Preferences(map[]);
    var cache := new Cache(map[]);
    var controller := new CurrencyController(session, currencies, preferences, cache);
    var _ := controller.Store("EUR", "EUR", "E", 0);
    var currency := currencies.rows[0];
    shown := controller.Delete(currency, journalCount, previous);
    destroyed := controller.Destroy(currency, journalCount);
    stillThere := currency.id in currencies.rows;
    flash := session.flash;
  }

  /**
   * An unblocked delete does not remember the page it was asked from:
   * `destroy()` goes to whatever the session held for the delete flow before
   * `delete()` ran.
   */
  method UnblockedDeleteScenario(m: Store, previous: string)
    returns (destroyed: Response, gone: bool)
    ensures destroyed == RedirectTo(Lookup(m, DeleteUrl))
    ensures gone
  {
    var session := new Session(m);
    var currencies := new CurrencyTable();
    var preferences := new Preferences(map[]);
    var cache := new Cache(map[]);
    var controller := new CurrencyController(session, currencies, preferences, cache);
    var _ := controller.Store("Euro", "EUR", "E", 0);
    var currency := currencies.rows[0];
    var _ := controller.Delete(currency, 0, previous);
    destroyed := controller.Destroy(currency, 0);
    gone := currency.id !in currencies.rows;
  }

  /**
   * After entering the currency create form from `first`, a plain `store()`
   * goes to the categories' remembered page, which the visit did not set.
   */
  method StoreReturnScenario(m: Store, first: string)
    returns (finished: Response)
    ensures finished == RedirectTo(Lookup(m, CategoriesCreateUrl))
  {
    var session := new Session(m);
    var currencies := new CurrencyTable();
    var preferences := new Preferences(map[]);
    var cache := new Cache(map[]);
    var controller := new CurrencyController(session, currencies, preferences, cache);
    var _ := controller.Create(first);
    finished := controller.Store("Euro", "EUR", "E", 0);
  }
}
