/** Shapes of the themealdb.com records that the views consume. The records
    are passed through from the HTTP API unchanged; only the fields the
    views read are kept. */
module MealDb {

  /** A value that JavaScript may hold as null or undefined. */
  datatype Option<+T> = None | Some(value: T)

  /** An entry of the category list: `strCategory` and `strCategoryThumb`. */
  datatype Category = Category(name: string, thumb: string)

  /** An entry of a filter-by-category response: `idMeal`, `strMeal`, `strMealThumb`. */
  datatype RecipeSummary = RecipeSummary(id: string, name: string, thumb: string)

  /** A lookup-by-id record. `ingredient[i]` and `measure[i]` stand for the
      fields `strIngredient<i>` and `strMeasure<i>`; a field the record leaves
      null or undefined is a key the map lacks. `youtube` is `strYoutube`,
      with "" also standing for null. */
  datatype Meal = Meal(
    name: string,
    area: string,
    instructions: string,
    youtube: string,
    ingredient: map<int, string>,
    measure: map<int, string>)
}
