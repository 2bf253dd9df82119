/** The three meal keys ('breakfast', 'lunch', 'dinner') that the attendance page and the dashboard track. */
module Meals {

  datatype Meal = Breakfast | Lunch | Dinner
}
