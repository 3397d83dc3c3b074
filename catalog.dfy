/** The records of the catalog: products, the categories they may embed, and customers. */
module Catalog {
  import opened Wrappers
  import Lists

  /** A category as a product embeds it. */
  datatype Category = Category(id: string, name: string)

  /** A product; `price` is an exact decimal. */
  datatype Product = Product(
    id: string,
    name: string,
    price: real,
    categoryId: Option<string>,
    categoryIds: Option<seq<string>>,
    categories: Option<seq<Category>>)

  /** A customer with the snapshots of the products they bought. */
  datatype Customer = Customer(id: string, name: string, email: string, purchasedProducts: seq<Product>)

  /** The fields of a product to be created (a product without its id). */
  datatype ProductInput = ProductInput(
    name: string,
    price: real,
    categoryId: Option<string>,
    categoryIds: Option<seq<string>>,
    categories: Option<seq<Category>>)

  /** The fields of a customer to be created (no id, no purchases). */
  datatype CustomerInput = CustomerInput(name: string, email: string)

  /** A partial product update: every present field overwrites; the id cannot be changed. */
  datatype ProductUpdate = ProductUpdate(
    name: Option<string>,
    price: Option<real>,
    categoryId: Option<string>,
    categoryIds: Option<seq<string>>,
    categories: Option<seq<Category>>)

  /** A partial customer update; it may replace the purchase list too. */
  datatype CustomerUpdate = CustomerUpdate(
    name: Option<string>,
    email: Option<string>,
    purchasedProducts: Option<seq<Product>>)

  function Override<T>(old_: T, update: Option<T>): T {
    if update.Some? then update.value else old_
  }

  /** `{ ...product, ...updates }`. */
  function ApplyProductUpdate(p: Product, u: ProductUpdate): (r: Product)
    ensures r.id == p.id
    ensures r.name == Override(p.name, u.name) && r.price == Override(p.price, u.price)
    ensures r.categoryId == (if u.categoryId.Some? then u.categoryId else p.categoryId)
    ensures r.categoryIds == (if u.categoryIds.Some? then u.categoryIds else p.categoryIds)
    ensures r.categories == (if u.categories.Some? then u.categories else p.categories)
  {
    Product(p.id, Override(p.name, u.name), Override(p.price, u.price),
            if u.categoryId.Some? then u.categoryId else p.categoryId,
            if u.categoryIds.Some? then u.categoryIds else p.categoryIds,
            if u.categories.Some? then u.categories else p.categories)
  }

  /** `{ ...customer, ...updates }`. */
  function ApplyCustomerUpdate(c: Customer, u: CustomerUpdate): (r: Customer)
    ensures r.id == c.id
    ensures r.name == Override(c.name, u.name) && r.email == Override(c.email, u.email)
    ensures r.purchasedProducts == Override(c.purchasedProducts, u.purchasedProducts)
  {
    Customer(c.id, Override(c.name, u.name), Override(c.email, u.email),
             Override(c.purchasedProducts, u.purchasedProducts))
  }

  function Price(p: Product): real {
    p.price
  }

  /** `products.reduce((total, p) => total + p.price, 0)`. */
  function PriceSum(ps: seq<Product>): real {
    Lists.SumOf(ps, Price)
  }

  /** What a customer spent: the sum of the prices of the product snapshots they hold. */
  function Spent(c: Customer): real {
    PriceSum(c.purchasedProducts)
  }
}
