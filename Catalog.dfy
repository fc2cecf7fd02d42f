/** The recipe records every script reads from the page-wide recipe list.
    A field the data leaves out is the empty string here, which is what the
    scripts fall back to (`r.image || ""`, `r.category || ""`). */
module Catalog {

  /** One ingredient line of a recipe: the Italian word and its Polish translation. */
  datatype Ingredient = Ingredient(it: string, pl: string)

  datatype Recipe = Recipe(
    id: int,
    italianName: string,
    polishName: string,
    category: string,
    image: string,
    ingredients: seq<Ingredient>)

  /** The page-wide `recipesData` value: a list, a falsy value (not loaded:
      `undefined`, `null`, ...), or some other, truthy value that is not a list. */
  datatype RecipesGlobal = RecipeList(recipes: seq<Recipe>) | Unset | OtherValue
}
