/** The product catalogue service (Back-end/.../service/ProductService.java) over its
    repository, modelled as a map from id to record plus the next id the database's
    identity column will hand out. */
module ProductService {
  import opened Wrappers

  /** A product row (Back-end/.../model/Product.java); `BigDecimal` prices are exact integers. */
  datatype Product = Product(id: Option<int>, name: string, price: int, description: Option<string>, stock: int)

  datatype ProductRepo = ProductRepo(rows: map<int, Product>, nextId: int)

  /** Every row is stored under its own id, and every id handed out so far is below `nextId`. */
  predicate Valid(repo: ProductRepo) {
    forall k :: k in repo.rows ==> k < repo.nextId && repo.rows[k].id == Some(k)
  }

  /** `repo` and `repo'` hold the same rows except possibly the one under `id`. */
  ghost predicate OthersUnchanged(repo: ProductRepo, repo': ProductRepo, id: int) {
    forall k :: k != id ==> (k in repo.rows <==> k in repo'.rows) && (k in repo.rows ==> repo.rows[k] == repo'.rows[k])
  }

  /** `saveProduct` (`save`): a product whose id is stored replaces that row; any other is
      inserted under a freshly generated id. Either way the saved record is the argument with
      its final id, and it is what a lookup of that id now returns. */
  function SaveProduct(repo: ProductRepo, p: Product): (r: (ProductRepo, Product))
    requires Valid(repo)
    ensures Valid(r.0)
    ensures r.1.id.Some? && r.1 == p.(id := r.1.id)
    ensures GetProductById(r.0, r.1.id.value) == Some(r.1)
    ensures OthersUnchanged(repo, r.0, r.1.id.value)
    ensures p.id.Some? && p.id.value in repo.rows ==> r.1 == p && r.0.rows.Keys == repo.rows.Keys
    ensures !(p.id.Some? && p.id.value in repo.rows) ==> r.1.id.value !in repo.rows && r.0.rows.Keys == repo.rows.Keys + {r.1.id.value}
  {
    if p.id.Some? && p.id.value in repo.rows then
      (repo.(rows := repo.rows[p.id.value := p]), p)
    else
      var id := repo.nextId;
      var saved := p.(id := Some(id));
      (ProductRepo(repo.rows[id := saved], id + 1), saved)
  }

  /** `getProductById`: the stored row exactly when the id is present. */
  function GetProductById(repo: ProductRepo, id: int): (r: Option<Product>)
    ensures r.Some? <==> id in repo.rows
    ensures r.Some? ==> r.value == repo.rows[id]
  {
    if id in repo.rows then Some(repo.rows[id]) else None
  }

  /** `updateProduct`: an absent id yields empty and changes nothing; a present one gets
      exactly name, price, description and stock from `upd`, keeps its id, and no other row
      changes. */
  function UpdateProduct(repo: ProductRepo, id: int, upd: Product): (r: (ProductRepo, Option<Product>))
    requires Valid(repo)
    ensures Valid(r.0)
    ensures id !in repo.rows ==> r == (repo, None)
    ensures id in repo.rows ==>
              && r.1.Some?
              && r.1.value == Product(repo.rows[id].id, upd.name, upd.price, upd.description, upd.stock)
              && GetProductById(r.0, id) == r.1
              && r.0.rows.Keys == repo.rows.Keys
    ensures OthersUnchanged(repo, r.0, id)
  {
    if id !in repo.rows then (repo, None)
    else
      var prev := repo.rows[id];
      var q := prev.(name := upd.name, price := upd.price, description := upd.description, stock := upd.stock);
      (repo.(rows := repo.rows[id := q]), Some(q))
  }

  /** `deleteProduct`: the id is gone (deleting an absent id is a no-op) and no other row
      changes. */
  function DeleteProduct(repo: ProductRepo, id: int): (r: ProductRepo)
    requires Valid(repo)
    ensures Valid(r)
    ensures GetProductById(r, id).None?
    ensures OthersUnchanged(repo, r, id)
    ensures id !in repo.rows ==> r == repo
  {
    repo.(rows := repo.rows - {id})
  }
}
